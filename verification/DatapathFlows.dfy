// Exclusive outer tuples and sticky translations over whole runs of the NAT datapath.
module DatapathFlows {
  import opened Net
  import opened Datapath
  import opened DatapathRuns

  // One forward translation: the client's flow and the tuple that left the node.
  datatype Translation = Translation(flow: FlowKey, outer: FlowKey)

  function Emitted(s: State, event: Event, hash: FlowKey -> U32): seq<Translation> {
    if event.Arrival? then
      var o := Ingress(s, event.packet, hash, event.adversary);
      if o.path.Forwarded? && o.verdict.Ok? then [Translation(FlowOf(event.packet), FlowOf(o.verdict.packet))] else []
    else []
  }

  function Translations(s: State, events: seq<Event>, hash: FlowKey -> U32): seq<Translation> {
    if events == [] then []
    else
      var before := events[..|events| - 1];
      Translations(s, before, hash) + Emitted(After(s, before, hash), events[|events| - 1], hash)
  }

  ghost predicate NoReverseEviction(event: Event) {
    match event
    case Arrival(_, adversary) => forall i: nat :: adversary(i).evictReverse == {}
    case Eviction(victims) => victims.evictReverse == {}
    case Swap(_) => true
  }

  ghost predicate NoneEvicted(events: seq<Event>) {
    forall event :: event in events ==> NoReverseEviction(event)
  }

  // ---- No two flows share an outer tuple ----

  ghost predicate Owned(s: State, t: Translation) {
    && t.outer.protocol == t.flow.protocol
    && Turned(t.outer) in s.reverse && s.reverse[Turned(t.outer)] == Owner(t.flow)
  }

  lemma EmittedOwned(s: State, event: Event, hash: FlowKey -> U32, t: Translation)
    requires t in Emitted(s, event, hash)
    ensures Owned(Step(s, event, hash), t)
  {
    ForwardOwnsReply(s, event.packet, hash, event.adversary);
  }

  lemma OwnedStays(s: State, event: Event, hash: FlowKey -> U32, t: Translation)
    requires NoReverseEviction(event) && Owned(s, t)
    ensures Owned(Step(s, event, hash), t)
  {
    StepKeeps(s, event, hash, Turned(t.outer));
  }

  lemma {:induction false} TranslationsOwned(s: State, events: seq<Event>, hash: FlowKey -> U32)
    requires NoneEvicted(events)
    ensures forall t :: t in Translations(s, events, hash) ==> Owned(After(s, events, hash), t)
  {
    if events != [] {
      var before, last := events[..|events| - 1], events[|events| - 1];
      var mid, end := After(s, before, hash), After(s, events, hash);
      TranslationsOwned(s, before, hash);
      forall t | t in Translations(s, events, hash)
        ensures Owned(end, t)
      {
        if t in Translations(s, before, hash) {
          OwnedStays(mid, last, hash, t);
        } else {
          EmittedOwned(mid, last, hash, t);
        }
      }
    }
  }

  /** While no reverse entry is evicted, two different flows never leave under one outer tuple,
      from any starting state and across table swaps and forward evictions. */
  lemma {:induction false} OuterTuplesExclusive(s: State, events: seq<Event>, hash: FlowKey -> U32, a: Translation,
                                                b: Translation)
    requires NoneEvicted(events)
    requires a in Translations(s, events, hash) && b in Translations(s, events, hash)
    requires a.outer == b.outer
    ensures a.flow == b.flow
  {
    TranslationsOwned(s, events, hash);
    assert Owned(After(s, events, hash), a) && Owned(After(s, events, hash), b);
  }

  // ---- The probe sequence ----

  lemma ModShift(a: int, k: int)
    ensures (a + PORT_SPAN * k) % PORT_SPAN == a % PORT_SPAN
  {
  }

  // Two numbers less than a span apart have different remainders.
  lemma NearbyDiffer(a: nat, d: nat)
    requires 0 < d < PORT_SPAN
    ensures a % PORT_SPAN != (a + d) % PORT_SPAN
  {
  }

  // A pair of probes on either side of the wrap: 2^32 is 96 modulo the span, so they are 96 - (j - i) apart.
  lemma StraddlingDiffer(hash: U32, i: nat, j: nat)
    requires i < j < PROBES && hash + i < 0x1_0000_0000 <= hash + j
    ensures (hash + i) % PORT_SPAN != (hash + j - 0x1_0000_0000) % PORT_SPAN
  {
    var low: int, d: int := hash + j - 0x1_0000_0000, 96 - (j - i);
    assert hash + i == low + d + PORT_SPAN * 1551650;
    ModShift(low + d, 1551650);
    NearbyDiffer(low, d);
  }

  // What the hash of a probe wraps to.
  function Wrapped(hash: U32, k: nat): nat
    requires k < PROBES
  {
    if hash + k < 0x1_0000_0000 then hash + k else hash + k - 0x1_0000_0000
  }

  lemma ProbePortWraps(hash: U32, k: nat)
    requires k < PROBES
    ensures ProbePort(hash, k) == 30000 + Wrapped(hash, k) % PORT_SPAN
  {
    assert (hash + k) % 0x1_0000_0000 == Wrapped(hash, k);
  }

  lemma WrappedDiffer(hash: U32, i: nat, j: nat)
    requires i < j < PROBES
    ensures Wrapped(hash, i) % PORT_SPAN != Wrapped(hash, j) % PORT_SPAN
  {
    if hash + i < 0x1_0000_0000 <= hash + j {
      StraddlingDiffer(hash, i, j);
    } else {
      NearbyDiffer(Wrapped(hash, i), j - i);
    }
  }

  /** For every 32-bit hash, wrapped or not, the ports of the probe positions are distinct and in range. */
  lemma ProbePortsDistinct(hash: U32, i: nat, j: nat)
    requires i < j < PROBES
    ensures 30000 <= ProbePort(hash, i) <= 32767
    ensures ProbePort(hash, i) != ProbePort(hash, j)
  {
    ProbePortWraps(hash, i);
    ProbePortWraps(hash, j);
    WrappedDiffer(hash, i, j);
  }

  // ---- A flow keeps its backend and source port ----

  // The backend the tables and the hash give a flow, if its service has any.
  function BackendFor(t: Tables, flow: FlowKey, hash: FlowKey -> U32): Option<BackendValue> {
    var key := ServiceKey(flow.destination, flow.destinationPort, flow.protocol);
    if key in t.services && t.services[key].count != 0 then
      BackendAt(t, PickIndex(t.services[key], hash(flow)))
    else None
  }

  function Candidate(backend: BackendValue, h: U32, k: nat): ForwardValue {
    ForwardValue(backend.address, backend.port, ProbePort(h, k))
  }

  // Probe position k is held by some other flow.
  predicate Taken(s: State, flow: FlowKey, backend: BackendValue, h: U32, k: nat) {
    var key := ReplyKey(Candidate(backend, h, k), s.tables.node, flow.protocol);
    key in s.reverse && !Matches(s.reverse[key], flow)
  }

  // The flow holds probe position k and every earlier position is another flow's.
  ghost predicate SettledAt(s: State, flow: FlowKey, value: ForwardValue, hash: FlowKey -> U32, k: nat) {
    && k < PROBES
    && BackendFor(s.tables, flow, hash).Some?
    && var backend := BackendFor(s.tables, flow, hash).value;
       && value == Candidate(backend, hash(flow), k)
       && ReplyKey(value, s.tables.node, flow.protocol) in s.reverse
       && Matches(s.reverse[ReplyKey(value, s.tables.node, flow.protocol)], flow)
       && forall j: nat :: j < k ==> Taken(s, flow, backend, hash(flow), j)
  }

  ghost predicate Settled(s: State, flow: FlowKey, value: ForwardValue, hash: FlowKey -> U32) {
    exists k: nat :: SettledAt(s, flow, value, hash, k)
  }

  ghost predicate AllSettled(s: State, hash: FlowKey -> U32) {
    forall flow :: flow in s.forward ==> Settled(s, flow, s.forward[flow], hash)
  }

  // The first position that is not another flow's determines the value.
  lemma SettledUnique(s: State, flow: FlowKey, a: ForwardValue, b: ForwardValue, hash: FlowKey -> U32)
    requires Settled(s, flow, a, hash) && Settled(s, flow, b, hash)
    ensures a == b
  {
    var i: nat :| SettledAt(s, flow, a, hash, i);
    var j: nat :| SettledAt(s, flow, b, hash, j);
    var backend := BackendFor(s.tables, flow, hash).value;
    assert !Taken(s, flow, backend, hash(flow), i) && !Taken(s, flow, backend, hash(flow), j);
  }

  // t has the same tables and at least the reverse entries of s.
  ghost predicate Grows(s: State, t: State) {
    && t.tables == s.tables
    && forall key :: key in s.reverse ==> key in t.reverse && t.reverse[key] == s.reverse[key]
  }

  lemma SettledGrows(s: State, t: State, flow: FlowKey, value: ForwardValue, hash: FlowKey -> U32)
    requires Grows(s, t) && Settled(s, flow, value, hash)
    ensures Settled(t, flow, value, hash)
  {
    var k: nat :| SettledAt(s, flow, value, hash, k);
    var backend := BackendFor(s.tables, flow, hash).value;
    forall j: nat | j < k
      ensures Taken(t, flow, backend, hash(flow), j)
    {
      assert Taken(s, flow, backend, hash(flow), j);
    }
    assert SettledAt(t, flow, value, hash, k);
  }

  // Reverse entries stay and no update is refused; forward entries may still vanish at any moment.
  ghost predicate Calm(adversary: Adversary) {
    forall i: nat :: adversary(i).evictReverse == {} && !adversary(i).refuse
  }

  // What a calm stretch of the program may do to the maps.
  ghost predicate CalmStep(s: State, t: State, hash: FlowKey -> U32) {
    && Grows(s, t)
    && forall flow :: flow in t.forward ==>
         (flow in s.forward && t.forward[flow] == s.forward[flow]) || Settled(t, flow, t.forward[flow], hash)
  }

  lemma CalmEvict(s: State, e: Interference, hash: FlowKey -> U32)
    requires e.evictReverse == {}
    ensures CalmStep(s, Evict(s, e), hash)
  {
  }

  lemma CalmTransitive(s: State, t: State, u: State, hash: FlowKey -> U32)
    requires CalmStep(s, t, hash) && CalmStep(t, u, hash)
    ensures CalmStep(s, u, hash)
  {
    forall flow | flow in u.forward
      ensures (flow in s.forward && u.forward[flow] == s.forward[flow]) || Settled(u, flow, u.forward[flow], hash)
    {
      if flow in t.forward && u.forward[flow] == t.forward[flow] && Settled(t, flow, t.forward[flow], hash) {
        SettledGrows(t, u, flow, t.forward[flow], hash);
      }
    }
  }

  // Writing a settled forward entry is a calm step.
  lemma CalmClaim(s: State, flow: FlowKey, hash: FlowKey -> U32, k: nat, adversary: Adversary)
    requires Calm(adversary) && BackendFor(s.tables, flow, hash).Some?
    requires SettledAt(s, flow, Candidate(BackendFor(s.tables, flow, hash).value, hash(flow), k), hash, k)
    ensures var candidate := Candidate(BackendFor(s.tables, flow, hash).value, hash(flow), k);
            var claimed := Claim(s, flow, candidate, k, adversary);
            && claimed.Finished? && CalmStep(s, claimed.state, hash)
            && (claimed.forward.Some? ==>
                  claimed.forward.value == candidate && Settled(claimed.state, flow, candidate, hash))
            && (claimed.forward.None? ==> flow in adversary(ProbeOp(k, 3)).evictForward)
  {
    var candidate := Candidate(BackendFor(s.tables, flow, hash).value, hash(flow), k);
    var claimed := Claim(s, flow, candidate, k, adversary);
    assert Grows(s, claimed.state);
    SettledGrows(s, claimed.state, flow, candidate, hash);
  }

  // What one calm probe from position k on establishes.
  ghost predicate ProbeSettles(s: State, flow: FlowKey, hash: FlowKey -> U32, adversary: Adversary, probed: Probed)
    requires BackendFor(s.tables, flow, hash).Some?
  {
    && probed.Finished? && CalmStep(s, probed.state, hash)
    && (probed.forward.Some? ==> Settled(probed.state, flow, probed.forward.value, hash))
    && (probed.forward.None? ==> AllTaken(s, flow, hash) || LosesForward(adversary, flow))
  }

  ghost predicate AllTaken(s: State, flow: FlowKey, hash: FlowKey -> U32)
    requires BackendFor(s.tables, flow, hash).Some?
  {
    forall k: nat :: k < PROBES ==> Taken(s, flow, BackendFor(s.tables, flow, hash).value, hash(flow), k)
  }

  ghost predicate LosesForward(adversary: Adversary, flow: FlowKey) {
    exists i: nat :: flow in adversary(i).evictForward
  }

  // The state in which position k is this flow's.
  function Held(s: State, flow: FlowKey, backend: BackendValue, h: U32, k: nat, adversary: Adversary): State {
    var key := ReplyKey(Candidate(backend, h, k), s.tables.node, flow.protocol);
    var s0 := Evict(s, adversary(ProbeOp(k, 0)));
    if key in s0.reverse then s0
    else
      var s1 := Evict(s0, adversary(ProbeOp(k, 1)));
      s1.(reverse := s1.reverse[key := Owner(flow)])
  }

  lemma CalmHold(s: State, flow: FlowKey, hash: FlowKey -> U32, k: nat, adversary: Adversary)
    requires k < PROBES && Calm(adversary) && BackendFor(s.tables, flow, hash).Some?
    requires forall j: nat :: j < k ==> Taken(s, flow, BackendFor(s.tables, flow, hash).value, hash(flow), j)
    requires !Taken(s, flow, BackendFor(s.tables, flow, hash).value, hash(flow), k)
    ensures var backend := BackendFor(s.tables, flow, hash).value;
            var held := Held(s, flow, backend, hash(flow), k, adversary);
            CalmStep(s, held, hash) && SettledAt(held, flow, Candidate(backend, hash(flow), k), hash, k)
  {
    var backend := BackendFor(s.tables, flow, hash).value;
    var held := Held(s, flow, backend, hash(flow), k, adversary);
    assert Grows(s, held);
    TakenGrows(s, held, flow, backend, hash(flow), k);
  }

  lemma {:induction false} ProbeAtHeld(s: State, flow: FlowKey, h: U32, backend: BackendValue, k: nat,
                                       adversary: Adversary)
    requires k < PROBES && Calm(adversary) && !Taken(s, flow, backend, h, k)
    requires Claim(Held(s, flow, backend, h, k, adversary), flow, Candidate(backend, h, k), k, adversary).Finished?
    ensures Probe(s, flow, h, backend, k, ProbePort(h, k), adversary)
         == Claim(Held(s, flow, backend, h, k, adversary), flow, Candidate(backend, h, k), k, adversary)
  {
  }

  // A taken position leaves the maps and moves on.
  lemma {:induction false} ProbeAtTaken(s: State, flow: FlowKey, h: U32, backend: BackendValue, k: nat,
                                        adversary: Adversary)
    requires k < PROBES && Calm(adversary) && Taken(s, flow, backend, h, k)
    ensures Probe(s, flow, h, backend, k, ProbePort(h, k), adversary)
         == Probe(Evict(s, adversary(ProbeOp(k, 0))), flow, h, backend, k + 1, ProbePort(h, k + 1), adversary)
  {
  }

  lemma CalmTaken(s: State, s0: State, flow: FlowKey, hash: FlowKey -> U32, adversary: Adversary, probed: Probed)
    requires s0.reverse == s.reverse && s0.tables == s.tables && CalmStep(s, s0, hash)
    requires BackendFor(s.tables, flow, hash).Some? && ProbeSettles(s0, flow, hash, adversary, probed)
    ensures ProbeSettles(s, flow, hash, adversary, probed)
  {
    CalmTransitive(s, s0, probed.state, hash);
    AllTakenBack(s, s0, flow, hash);
  }

  lemma {:induction false} CalmProbe(s: State, flow: FlowKey, hash: FlowKey -> U32, k: nat, adversary: Adversary)
    requires k <= PROBES && Calm(adversary) && BackendFor(s.tables, flow, hash).Some?
    requires forall j: nat :: j < k ==> Taken(s, flow, BackendFor(s.tables, flow, hash).value, hash(flow), j)
    ensures var backend := BackendFor(s.tables, flow, hash).value;
            ProbeSettles(s, flow, hash, adversary,
                         Probe(s, flow, hash(flow), backend, k, ProbePort(hash(flow), k), adversary))
    decreases PROBES - k
  {
    var backend, h := BackendFor(s.tables, flow, hash).value, hash(flow);
    if k == PROBES {
      assert AllTaken(s, flow, hash);
    } else if Taken(s, flow, backend, h, k) {
      var s0 := Evict(s, adversary(ProbeOp(k, 0)));
      CalmEvict(s, adversary(ProbeOp(k, 0)), hash);
      TakenGrows(s, s0, flow, backend, h, k + 1);
      CalmProbe(s0, flow, hash, k + 1, adversary);
      ProbeAtTaken(s, flow, h, backend, k, adversary);
      CalmTaken(s, s0, flow, hash, adversary, Probe(s0, flow, h, backend, k + 1, ProbePort(h, k + 1), adversary));
    } else {
      CalmHold(s, flow, hash, k, adversary);
      var held := Held(s, flow, backend, h, k, adversary);
      CalmClaim(held, flow, hash, k, adversary);
      ProbeAtHeld(s, flow, h, backend, k, adversary);
      CalmTransitive(s, held, Claim(held, flow, Candidate(backend, h, k), k, adversary).state, hash);
    }
  }

  lemma AllTakenBack(s: State, t: State, flow: FlowKey, hash: FlowKey -> U32)
    requires s.reverse == t.reverse && s.tables == t.tables && BackendFor(s.tables, flow, hash).Some?
    ensures AllTaken(t, flow, hash) ==> AllTaken(s, flow, hash)
  {
    if AllTaken(t, flow, hash) {
      TakenGrows(t, s, flow, BackendFor(s.tables, flow, hash).value, hash(flow), PROBES);
    }
  }

  lemma TakenGrows(s: State, t: State, flow: FlowKey, backend: BackendValue, h: U32, k: nat)
    requires Grows(s, t) && forall j: nat :: j < k ==> Taken(s, flow, backend, h, j)
    ensures forall j: nat :: j < k ==> Taken(t, flow, backend, h, j)
  {
    forall j: nat | j < k
      ensures Taken(t, flow, backend, h, j)
    {
      assert Taken(s, flow, backend, h, j);
    }
  }

  // A settled value needs no repair and is delivered.
  lemma CalmRepair(s: State, p: Packet, value: ForwardValue, hash: FlowKey -> U32, adversary: Adversary)
    requires Calm(adversary) && Settled(s, FlowOf(p), value, hash)
    ensures var o := Repair(s, p, value, adversary);
            o.path == Forwarded(value) && CalmStep(s, o.state, hash) && Settled(o.state, FlowOf(p), value, hash)
  {
    var k: nat :| SettledAt(s, FlowOf(p), value, hash, k);
    var s0 := Evict(s, adversary(REPAIR));
    CalmEvict(s, adversary(REPAIR), hash);
    SettledGrows(s, s0, FlowOf(p), value, hash);
  }

  lemma CalmRoute(s: State, p: Packet, hash: FlowKey -> U32, adversary: Adversary)
    requires Calm(adversary) && AllSettled(s, hash)
    requires ServiceKeyOf(p) in s.tables.services && s.tables.services[ServiceKeyOf(p)].count != 0
    ensures var o := Route(s, p, s.tables.services[ServiceKeyOf(p)], hash(FlowOf(p)), adversary);
            CalmStep(s, o.state, hash) && (o.path.Forwarded? ==> Settled(o.state, FlowOf(p), o.path.value, hash))
  {
    var flow := FlowOf(p);
    var s1 := Evict(s, adversary(FORWARD_LOOKUP));
    CalmEvict(s, adversary(FORWARD_LOOKUP), hash);
    var o := Route(s, p, s.tables.services[ServiceKeyOf(p)], hash(flow), adversary);
    if flow in s1.forward {
      SettledGrows(s, s1, flow, s.forward[flow], hash);
      CalmRepair(s1, p, s1.forward[flow], hash, adversary);
      CalmTransitive(s, s1, o.state, hash);
    } else if BackendFor(s.tables, flow, hash).Some? {
      CalmProbe(s1, flow, hash, 0, adversary);
      var backend := BackendFor(s.tables, flow, hash).value;
      var probed := Probe(s1, flow, hash(flow), backend, 0, ProbePort(hash(flow), 0), adversary);
      CalmTransitive(s, s1, probed.state, hash);
      if probed.forward.Some? {
        CalmRepair(probed.state, p, probed.forward.value, hash, adversary);
        CalmTransitive(s, probed.state, o.state, hash);
      }
    }
  }

  ghost predicate CalmEvent(event: Event) {
    match event
    case Arrival(_, adversary) => Calm(adversary)
    case Eviction(victims) => victims.evictReverse == {}
    case Swap(_) => false
  }

  ghost predicate AllCalm(events: seq<Event>) {
    forall event :: event in events ==> CalmEvent(event)
  }

  // The translation towards the backend that an outer tuple shows.
  ghost predicate SettledTranslation(s: State, t: Translation, hash: FlowKey -> U32) {
    exists value :: Settled(s, t.flow, value, hash)
      && t.outer == Turned(ReplyKey(value, s.tables.node, t.flow.protocol))
  }

  lemma CalmEventStep(s: State, event: Event, hash: FlowKey -> U32)
    requires CalmEvent(event) && AllSettled(s, hash)
    ensures CalmStep(s, Step(s, event, hash), hash) && AllSettled(Step(s, event, hash), hash)
    ensures forall t :: t in Emitted(s, event, hash) ==> SettledTranslation(Step(s, event, hash), t, hash)
  {
    var next := Step(s, event, hash);
    match event {
      case Eviction(victims) =>
        CalmEvict(s, victims, hash);
      case Arrival(p, adversary) =>
        var o := Ingress(s, p, hash, adversary);
        CalmArrival(s, p, hash, adversary);
        if o.path.Forwarded? {
          ForwardOwnsReply(s, p, hash, adversary);
          ForwardTuple(s, p, hash, adversary);
        }
    }
    forall flow | flow in next.forward
      ensures Settled(next, flow, next.forward[flow], hash)
    {
      if flow in s.forward && next.forward[flow] == s.forward[flow] {
        SettledGrows(s, next, flow, s.forward[flow], hash);
      }
    }
  }

  lemma CalmArrival(s: State, p: Packet, hash: FlowKey -> U32, adversary: Adversary)
    requires Calm(adversary) && AllSettled(s, hash)
    ensures var o := Ingress(s, p, hash, adversary);
            CalmStep(s, o.state, hash) && (o.path.Forwarded? ==> Settled(o.state, FlowOf(p), o.path.value, hash))
  {
    var s0 := Evict(s, adversary(REVERSE_LOOKUP));
    CalmEvict(s, adversary(REVERSE_LOOKUP), hash);
    if p.ipv6 && Transport(p) && !Malformed(p) && FlowOf(p) !in s0.reverse && ServiceKeyOf(p) in s.tables.services
       && s.tables.services[ServiceKeyOf(p)].count != 0 {
      forall flow | flow in s0.forward
        ensures Settled(s0, flow, s0.forward[flow], hash)
      {
        SettledGrows(s, s0, flow, s.forward[flow], hash);
      }
      CalmRoute(s0, p, hash, adversary);
      CalmTransitive(s, s0, Ingress(s, p, hash, adversary).state, hash);
    }
  }

  lemma ForwardTuple(s: State, p: Packet, hash: FlowKey -> U32, adversary: Adversary)
    requires Ingress(s, p, hash, adversary).path.Forwarded?
    ensures var o := Ingress(s, p, hash, adversary);
            o.verdict.Ok? && FlowOf(o.verdict.packet) == Turned(ReplyKey(o.path.value, s.tables.node, p.nextHeader))
  {
    var s0 := Evict(s, adversary(REVERSE_LOOKUP));
    var s1 := Evict(s0, adversary(FORWARD_LOOKUP));
    if FlowOf(p) in s1.forward {
      RepairOwns(s1, p, s1.forward[FlowOf(p)], adversary);
    } else {
      var h := hash(FlowOf(p));
      var backend := BackendAt(s1.tables, PickIndex(s.tables.services[ServiceKeyOf(p)], h)).value;
      var probed := Probe(s1, FlowOf(p), h, backend, 0, ProbePort(h, 0), adversary);
      ProbeKeepsTables(s1, FlowOf(p), h, backend, 0, ProbePort(h, 0), adversary);
      RepairOwns(probed.state, p, probed.forward.value, adversary);
    }
  }

  lemma {:induction false} CalmRun(s: State, events: seq<Event>, hash: FlowKey -> U32)
    requires AllCalm(events) && AllSettled(s, hash)
    ensures AllSettled(After(s, events, hash), hash)
    ensures forall t :: t in Translations(s, events, hash) ==> SettledTranslation(After(s, events, hash), t, hash)
  {
    if events != [] {
      var before, last := events[..|events| - 1], events[|events| - 1];
      var mid, end := After(s, before, hash), After(s, events, hash);
      CalmRun(s, before, hash);
      CalmEventStep(mid, last, hash);
      forall t | t in Translations(s, events, hash)
        ensures SettledTranslation(end, t, hash)
      {
        if t in Translations(s, before, hash) {
          var value :| Settled(mid, t.flow, value, hash)
              && t.outer == Turned(ReplyKey(value, mid.tables.node, t.flow.protocol));
          SettledGrows(mid, end, t.flow, value, hash);
        }
      }
    }
  }

  /** With one table, standing reverse entries and accepted updates, every packet of a flow leaves under the same
      backend and source port however often its forward entry is evicted. */
  lemma {:induction false} FlowsAreSticky(tables: Tables, events: seq<Event>, hash: FlowKey -> U32, a: Translation,
                                          b: Translation)
    requires AllCalm(events)
    requires a in Translations(State(tables, map[], map[]), events, hash)
    requires b in Translations(State(tables, map[], map[]), events, hash)
    requires a.flow == b.flow
    ensures a.outer == b.outer
  {
    var s := State(tables, map[], map[]);
    CalmRun(s, events, hash);
    var end := After(s, events, hash);
    var x :| Settled(end, a.flow, x, hash) && a.outer == Turned(ReplyKey(x, end.tables.node, a.flow.protocol));
    var y :| Settled(end, b.flow, y, hash) && b.outer == Turned(ReplyKey(y, end.tables.node, b.flow.protocol));
    SettledUnique(end, a.flow, x, y, hash);
  }

  /** A flow of a service with backends is refused a source port exactly when all 32 distinct ports are held by other
      flows, if forward entries are settled and nothing is evicted or refused during its packet. */
  lemma DroppedOnlyWhenFull(s: State, p: Packet, hash: FlowKey -> U32, adversary: Adversary)
    requires forall i: nat :: adversary(i) == Interference({}, {}, false)
    requires AllSettled(s, hash) && p.ipv6 && Transport(p) && !Malformed(p)
    requires FlowOf(p) !in s.reverse && BackendFor(s.tables, FlowOf(p), hash).Some?
    ensures Ingress(s, p, hash, adversary).path == Dropped <==>
            AllTaken(s, FlowOf(p), hash)
  {
    var flow := FlowOf(p);
    var backend := BackendFor(s.tables, flow, hash).value;
    assert Evict(s, adversary(REVERSE_LOOKUP)) == s && Evict(s, adversary(FORWARD_LOOKUP)) == s;
    if flow in s.forward {
      CalmRepair(s, p, s.forward[flow], hash, adversary);
      var k: nat :| SettledAt(s, flow, s.forward[flow], hash, k);
      assert !Taken(s, flow, backend, hash(flow), k);
    } else {
      CalmProbe(s, flow, hash, 0, adversary);
      var probed := Probe(s, flow, hash(flow), backend, 0, ProbePort(hash(flow), 0), adversary);
      if probed.forward.Some? {
        CalmRepair(probed.state, p, probed.forward.value, hash, adversary);
        var k: nat :| SettledAt(probed.state, flow, probed.forward.value, hash, k);
        assert !Taken(s, flow, backend, hash(flow), k);
      }
    }
  }

  /** The same after every run from empty maps in which reverse entries stand and updates are accepted. */
  lemma {:induction false} DroppedInRunsOnlyWhenFull(tables: Tables, events: seq<Event>, p: Packet,
                                                     hash: FlowKey -> U32, adversary: Adversary)
    requires AllCalm(events) && forall i: nat :: adversary(i) == Interference({}, {}, false)
    requires p.ipv6 && Transport(p) && !Malformed(p)
    requires var s := After(State(tables, map[], map[]), events, hash);
             FlowOf(p) !in s.reverse && BackendFor(s.tables, FlowOf(p), hash).Some?
    ensures var s := After(State(tables, map[], map[]), events, hash);
            Ingress(s, p, hash, adversary).path == Dropped <==> AllTaken(s, FlowOf(p), hash)
  {
    CalmRun(State(tables, map[], map[]), events, hash);
    DroppedOnlyWhenFull(After(State(tables, map[], map[]), events, hash), p, hash, adversary);
  }
}
