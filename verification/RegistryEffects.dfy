// What each message does to the leader's registry, said about nodes and sessions rather than about the code's branches:
// who is registered, which state counts, and who leaves.
module RegistryEffects {
  import opened Net
  import opened Wire
  import opened Contracts
  import opened Merge
  import opened MergeProperties
  import opened Registry

  // ---- Hello ----

  predicate SharesIdentity(a: seq<Service>, b: seq<Service>) {
    exists x, y :: x in a && y in b && ServiceId(x) == ServiceId(y)
  }

  // No other node contradicts the hello: its NodeGroup's contract is the same, and no other NodeGroup claims a Service.
  predicate Agreed(r: Roster, hello: Hello) {
    forall id :: id in r.nodes && id != hello.nodeId ==>
      var other := r.nodes[id].hello;
      if other.nodeGroup == hello.nodeGroup then
        other.configDigest == hello.configDigest && other.services == hello.services
      else !SharesIdentity(other.services, hello.services)
  }

  // The prefix a hello is about: a local one may leave it to the node's own configuration.
  function PrefixText(config: Config, hello: Hello, local: bool): string {
    if local && hello.ipv6Prefix == "" then config.prefixText else hello.ipv6Prefix
  }

  predicate Admissible(p: Platform, config: Config, hello: Hello, local: bool, peer: Option<PeerIdentity>) {
    && hello.nodeId != "" && hello.cluster == p.cluster && hello.sessionId != ""
    && ContractOk(p, hello.nodeGroup, hello.configDigest, hello.services)
    && p.prefix(PrefixText(config, hello, local)).Some?
    && ValidDelegatedPrefix(p.prefix(PrefixText(config, hello, local)).value)
    && (local ==> p.prefix(PrefixText(config, hello, local)).value == config.prefix)
    && (!local ==> peer == Some(PeerIdentity(hello.nodeId, hello.nodeGroup)))
  }

  lemma AgreedIsCompatible(r: Roster, hello: Hello)
    ensures Conflicts(r.nodes, hello) <==> !Agreed(r, hello)
  {
    forall a: seq<Service>, b: seq<Service>
      ensures Overlap(a, b) <==> SharesIdentity(a, b)
    {
      if SharesIdentity(a, b) {
        var x, y :| x in a && y in b && ServiceId(x) == ServiceId(y);
        var i :| 0 <= i < |a| && a[i] == x;
        var j :| 0 <= j < |b| && b[j] == y;
      }
    }
  }

  // What an accepted hello leaves: its node afresh, without a state and heard now, and its session.
  ghost predicate Registered(p: Platform, config: Config, r: Roster, hello: Hello, local: bool, now: Time, t: Roster)
    requires p.prefix(PrefixText(config, hello, local)).Some?
  {
    var text := PrefixText(config, hello, local);
    && t.nodes == r.nodes[hello.nodeId := Node(hello.(ipv6Prefix := text), None, now, p.prefix(text).value)]
    && (forall session :: session in t.sessions <==>
          session == hello.sessionId || (session in r.sessions && !HelloHad(r, hello.nodeId, session)))
    && (forall session :: session in t.sessions ==>
          t.sessions[session] == if session == hello.sessionId then hello.nodeId else r.sessions[session])
  }

  // The session of the hello a node is registered under.
  predicate HelloHad(r: Roster, id: string, session: string) {
    id in r.nodes && r.nodes[id].hello.sessionId == session
  }

  lemma AcceptedRegisters(p: Platform, config: Config, r: Roster, hello: Hello, local: bool, now: Time)
    requires p.prefix(PrefixText(config, hello, local)).Some?
    ensures Registered(p, config, r, hello, local, now,
                       AcceptHello(r, Completed(config, hello, local),
                                   p.prefix(Completed(config, hello, local).ipv6Prefix).value, now))
  {
    assert Completed(config, hello, local) == hello.(ipv6Prefix := PrefixText(config, hello, local));
  }

  /** An admissible hello that no other node contradicts registers its node afresh, without a state and heard now, under
      its session; the session of the node's previous hello ends and nothing else changes. Any other hello changes
      nothing. */
  lemma HelloExactly(p: Platform, config: Config, r: Roster, hello: Hello, local: bool, peer: Option<PeerIdentity>,
                     now: Time)
    ensures var t := Step(p, config, r, HelloArrives(hello, local, peer, now));
            if Admissible(p, config, hello, local, peer) && Agreed(r, hello) then
              Registered(p, config, r, hello, local, now, t)
            else t == r
  {
    AgreedIsCompatible(r, hello);
    if Admissible(p, config, hello, local, peer) && Agreed(r, hello) {
      AcceptedRegisters(p, config, r, hello, local, now);
    }
  }

  // ---- Node state ----

  predicate InsidePrefix(p: Platform, prefix: Prefix, e: Endpoint) {
    && p.address(e.address).Some? && p.address(e.address).value.IPv6? && prefix.address.IPv6?
    && p.address(e.address).value.bytes[..10] == prefix.address.bytes[..10]
  }

  // A state the registered session's node may hold.
  predicate Holdable(p: Platform, node: Node, state: NodeState) {
    && NodeStateOk(p, node.hello.nodeGroup, node.hello.services, state)
    && forall e :: e in state.endpoints ==> InsidePrefix(p, node.prefix, e)
  }

  /** A state under a registered session and its hello's digest, valid and inside the node's prefix, becomes the node's
      state, heard now, exactly when the session has no state yet or one of a lower sequence. A state under another
      digest removes the node and the session. Every other state changes nothing, and only a valid one of no higher
      sequence is acknowledged as a replay. */
  lemma StateExactly(p: Platform, config: Config, r: Roster, state: NodeState, now: Time)
    requires Consistent(p, r)
    ensures var t, verdict := Step(p, config, r, StateArrives(state, now)), StateVerdictOf(p, r, state);
            && (state.sessionId !in r.sessions ==> t == r && verdict == UnknownSession)
            && (state.sessionId in r.sessions ==>
                  var id := r.sessions[state.sessionId];
                  && id in r.nodes
                  && var node, last := r.nodes[id], SequenceOf(r, state.sessionId);
                     && (node.hello.configDigest != state.configDigest ==>
                           t == Roster(r.nodes - {id}, r.sessions - {state.sessionId}) && verdict == Retired)
                     && (node.hello.configDigest == state.configDigest ==>
                           if Holdable(p, node, state) && (last.None? || last.value < state.sequence) then
                             && t == Roster(r.nodes[id := Node(node.hello, Some(state), now, node.prefix)], r.sessions)
                             && verdict == Stored
                           else t == r && verdict == if Holdable(p, node, state) then Replayed else Refused))
  {
    if state.sessionId in r.sessions {
      var node := r.nodes[r.sessions[state.sessionId]];
      EndpointsWithin(p, node.prefix, state.endpoints);
    }
  }

  lemma EndpointsWithin(p: Platform, prefix: Prefix, endpoints: seq<Endpoint>)
    ensures WithinPrefix(p, prefix, endpoints) <==> forall e :: e in endpoints ==> InsidePrefix(p, prefix, e)
  {
    forall i | 0 <= i < |endpoints|
      ensures InsidePrefix(p, prefix, endpoints[i]) <==>
                p.address(endpoints[i].address).Some? && Contains(prefix, p.address(endpoints[i].address).value)
    {
    }
  }

  // ---- Leaving ----

  /** A drain removes its session and the session's node, and nothing else; an unknown session changes nothing. */
  lemma DrainExactly(p: Platform, config: Config, r: Roster, session: string)
    requires Consistent(p, r)
    ensures Step(p, config, r, DrainArrives(session))
         == if session in r.sessions then Roster(r.nodes - {r.sessions[session]}, r.sessions - {session}) else r
  {
    if session !in r.sessions {
      assert r.sessions - {session} == r.sessions;
    }
  }

  /** The leader's own drain removes its sessions, and its node if it had any. */
  lemma LocalDrainExactly(p: Platform, config: Config, r: Roster)
    ensures var t := Step(p, config, r, LocalDrains);
            && t.nodes == (if exists session :: session in r.sessions && r.sessions[session] == config.nodeId
                           then r.nodes - {config.nodeId} else r.nodes)
            && (forall session :: session in t.sessions <==>
                  session in r.sessions && r.sessions[session] != config.nodeId)
            && (forall session :: session in t.sessions ==> t.sessions[session] == r.sessions[session])
  {
    var mine := set session | session in r.sessions && r.sessions[session] == config.nodeId;
    if session :| session in r.sessions && r.sessions[session] == config.nodeId {
      assert session in mine;
    }
  }

  /** Expiry keeps a node, unchanged, if and only if it was heard within the last 35 seconds, and ends exactly the
      sessions of the hellos of the others. */
  lemma ExpiryExactly(p: Platform, config: Config, r: Roster, now: Time)
    ensures var t := Step(p, config, r, LeasesExpire(now));
            && (forall id :: id in t.nodes <==> id in r.nodes && now - r.nodes[id].received <= 35_000_000_000)
            && (forall id :: id in t.nodes ==> t.nodes[id] == r.nodes[id])
            && (forall session :: session in t.sessions <==>
                  && session in r.sessions
                  && forall id :: HelloHad(r, id, session) ==> now - r.nodes[id].received <= 35_000_000_000)
            && (forall session :: session in t.sessions ==> t.sessions[session] == r.sessions[session])
  {
    var t := Step(p, config, r, LeasesExpire(now));
    var lapsed := Lapsed(r.nodes, now);
    var gone := set id | id in lapsed :: r.nodes[id].hello.sessionId;
    forall session | session in r.sessions
      ensures session in gone <==> exists id :: HelloHad(r, id, session) && now - r.nodes[id].received > 35_000_000_000
    {
      if id :| HelloHad(r, id, session) && now - r.nodes[id].received > 35_000_000_000 {
        assert id in lapsed;
      }
    }
  }

  // ---- Sessions under two nodes ----

  // No two registered hellos carry one session.
  ghost predicate Apart(r: Roster) {
    forall a, b :: a in r.nodes && b in r.nodes && a != b ==> r.nodes[a].hello.sessionId != r.nodes[b].hello.sessionId
  }

  /** While no two registered hellos carry one session, a session belongs to the node whose hello carries it. So a hello
      ends only its own node's session, and expiry keeps a session exactly when it keeps its node. */
  lemma SessionIsItsNodes(p: Platform, r: Roster, id: string, session: string)
    requires Consistent(p, r) && Apart(r) && session in r.sessions
    ensures HelloHad(r, id, session) <==> r.sessions[session] == id
  {
    assert r.nodes[r.sessions[session]].hello.sessionId == session;
  }

  /** An operation keeps the registered sessions apart if and only if it is not an accepted hello that carries another
      registered node's session. */
  lemma ApartExactly(p: Platform, config: Config, r: Roster, e: Event)
    requires Consistent(p, r) && Apart(r)
    ensures Apart(Step(p, config, r, e)) <==>
              !(AcceptsHello(p, config, r, e)
                && exists id :: id != e.hello.nodeId && HelloHad(r, id, e.hello.sessionId))
  {
    var t := Step(p, config, r, e);
    if AcceptsHello(p, config, r, e) {
      AcceptedRegisters(p, config, r, e.hello, e.local, e.now);
      OneMoreApart(r, t, e.hello.nodeId);
    } else {
      HellosKept(p, config, r, e);
      FewerApart(r, t);
    }
  }

  lemma OneMoreApart(r: Roster, t: Roster, id: string)
    requires Apart(r) && id in t.nodes && t.nodes == r.nodes[id := t.nodes[id]]
    ensures Apart(t) <==> !exists other :: other != id && HelloHad(r, other, t.nodes[id].hello.sessionId)
  {
    if other :| other != id && HelloHad(r, other, t.nodes[id].hello.sessionId) {
      assert t.nodes[other].hello.sessionId == t.nodes[id].hello.sessionId;
    } else {
      forall other | other != id && other in r.nodes
        ensures t.nodes[other].hello.sessionId != t.nodes[id].hello.sessionId
      {
        assert !HelloHad(r, other, t.nodes[id].hello.sessionId);
      }
    }
  }

  lemma FewerApart(r: Roster, t: Roster)
    requires Apart(r) && forall id :: id in t.nodes ==> id in r.nodes && t.nodes[id].hello == r.nodes[id].hello
    ensures Apart(t)
  {
  }

  lemma HellosKept(p: Platform, config: Config, r: Roster, e: Event)
    requires !AcceptsHello(p, config, r, e)
    ensures forall id :: id in Step(p, config, r, e).nodes ==>
              id in r.nodes && Step(p, config, r, e).nodes[id].hello == r.nodes[id].hello
  {
  }

  /** A session that two registered hellos carry is lost to the later node as soon as the earlier one says hello under
      another session or expires: its states are refused from then on, although it is registered. */
  lemma SharedSessionIsLost(p: Platform, config: Config, r: Roster, a: string, session: string, e: Event)
    requires Consistent(p, r) && session in r.sessions && r.sessions[session] != a && HelloHad(r, a, session)
    requires || (AcceptsHello(p, config, r, e) && e.hello.nodeId == a && e.hello.sessionId != session)
             || (e.LeasesExpire? && e.now - r.nodes[a].received > 35_000_000_000)
    ensures session !in Step(p, config, r, e).sessions
    ensures e.HelloArrives? ==> r.sessions[session] in Step(p, config, r, e).nodes
  {
    if e.HelloArrives? {
      AcceptedRegisters(p, config, r, e.hello, e.local, e.now);
    } else {
      ExpiryExactly(p, config, r, e.now);
    }
  }
}
