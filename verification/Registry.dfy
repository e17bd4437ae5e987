// The leader's registry of node sessions: what hello, node state, drain, lease expiry, a new acquisition
// and the leader's own drain do to it, and what they all keep.
module Registry {
  import opened Net
  import opened Sorting
  import opened Wire
  import opened Contracts
  import opened Merge
  import opened MergeProperties
  import opened MergeOrder
  import T = Tables

  type Time = int
  const LEASE: Time := 35_000_000_000

  datatype Node = Node(hello: Hello, state: Option<NodeState>, received: Time, prefix: Prefix)
  datatype Roster = Roster(nodes: map<string, Node>, sessions: map<string, string>)
  datatype Config = Config(nodeId: string, nodeGroup: string, node: T.IP, prefix: Prefix, prefixText: string)

  // What mutual TLS says about a remote peer.
  datatype PeerIdentity = PeerIdentity(nodeId: string, nodeGroup: string)

  // ---- Operations ----

  // The prefix text a hello stands for: a local hello may leave it out.
  function Completed(config: Config, hello: Hello, local: bool): Hello {
    if local && hello.ipv6Prefix == "" then hello.(ipv6Prefix := config.prefixText) else hello
  }

  predicate HelloValid(p: Platform, config: Config, hello: Hello, local: bool, peer: Option<PeerIdentity>) {
    && hello.nodeId != "" && hello.cluster == p.cluster && hello.sessionId != ""
    && ContractOk(p, hello.nodeGroup, hello.configDigest, hello.services)
    && var prefix := p.prefix(Completed(config, hello, local).ipv6Prefix);
       && prefix.Some? && ValidDelegatedPrefix(prefix.value)
       && if local then prefix.value == config.prefix
          else peer.Some? && peer.value.nodeId == hello.nodeId && peer.value.nodeGroup == hello.nodeGroup
  }

  predicate Conflicts(nodes: map<string, Node>, hello: Hello) {
    exists id :: id in nodes && id != hello.nodeId && !Compatible(nodes[id].hello, hello)
  }

  function AcceptHello(r: Roster, hello: Hello, prefix: Prefix, now: Time): Roster {
    var sessions :=
      if hello.nodeId in r.nodes then r.sessions - {r.nodes[hello.nodeId].hello.sessionId} else r.sessions;
    Roster(r.nodes[hello.nodeId := Node(hello, None, now, prefix)], sessions[hello.sessionId := hello.nodeId])
  }

  function HelloStep(p: Platform, config: Config, r: Roster, hello: Hello, local: bool, peer: Option<PeerIdentity>,
                     now: Time): Roster {
    if HelloValid(p, config, hello, local, peer) && !Conflicts(r.nodes, hello) then
      var completed := Completed(config, hello, local);
      AcceptHello(r, completed, p.prefix(completed.ipv6Prefix).value, now)
    else r
  }

  datatype StateVerdict = UnknownSession | Retired | Refused | Replayed | Stored

  predicate WithinPrefix(p: Platform, prefix: Prefix, endpoints: seq<Endpoint>) {
    forall i :: 0 <= i < |endpoints| ==>
      p.address(endpoints[i].address).Some? && Contains(prefix, p.address(endpoints[i].address).value)
  }

  function StateVerdictOf(p: Platform, r: Roster, state: NodeState): StateVerdict {
    if state.sessionId !in r.sessions || r.sessions[state.sessionId] !in r.nodes
       || r.nodes[r.sessions[state.sessionId]].hello.sessionId != state.sessionId then UnknownSession
    else
      var node := r.nodes[r.sessions[state.sessionId]];
      if node.hello.configDigest != state.configDigest then Retired
      else if !NodeStateOk(p, node.hello.nodeGroup, node.hello.services, state)
              || !WithinPrefix(p, node.prefix, state.endpoints) then Refused
      else if node.state.Some? && state.sequence <= node.state.value.sequence then Replayed
      else Stored
  }

  function StateStep(p: Platform, r: Roster, state: NodeState, now: Time): Roster {
    match StateVerdictOf(p, r, state)
    case Retired => Roster(r.nodes - {r.sessions[state.sessionId]}, r.sessions - {state.sessionId})
    case Stored =>
      var id := r.sessions[state.sessionId];
      r.(nodes := r.nodes[id := r.nodes[id].(state := Some(state), received := now)])
    case _ => r
  }

  function DrainStep(r: Roster, session: string): Roster {
    var nodes :=
      if session in r.sessions && r.sessions[session] in r.nodes
         && r.nodes[r.sessions[session]].hello.sessionId == session
      then r.nodes - {r.sessions[session]}
      else r.nodes;
    Roster(nodes, r.sessions - {session})
  }

  function Lapsed(nodes: map<string, Node>, now: Time): set<string> {
    set id | id in nodes && now - nodes[id].received > LEASE
  }

  function ExpireStep(r: Roster, now: Time): Roster {
    var lapsed := Lapsed(r.nodes, now);
    Roster(r.nodes - lapsed, r.sessions - set id | id in lapsed :: r.nodes[id].hello.sessionId)
  }

  function LocalDrainStep(r: Roster, nodeId: string): Roster {
    var mine := set session | session in r.sessions && r.sessions[session] == nodeId;
    if mine == {} then r else Roster(r.nodes - {nodeId}, r.sessions - mine)
  }

  // ---- What every operation keeps ----

  predicate NodeConsistent(p: Platform, id: string, node: Node) {
    && id == node.hello.nodeId && id != ""
    && PeerOk(p, Peer(node.hello, node.state))
    && ValidDelegatedPrefix(node.prefix) && p.prefix(node.hello.ipv6Prefix) == Some(node.prefix)
    && (node.state.Some? ==> WithinPrefix(p, node.prefix, node.state.value.endpoints))
  }

  predicate SessionsLive(r: Roster) {
    forall session :: session in r.sessions ==>
      r.sessions[session] in r.nodes && r.nodes[r.sessions[session]].hello.sessionId == session
  }

  predicate NodesCompatible(nodes: map<string, Node>) {
    forall a, b :: a in nodes && b in nodes && a != b ==> Compatible(nodes[a].hello, nodes[b].hello)
  }

  predicate Consistent(p: Platform, r: Roster) {
    && SessionsLive(r) && NodesCompatible(r.nodes)
    && forall id :: id in r.nodes ==> NodeConsistent(p, id, r.nodes[id])
  }

  datatype Event =
    | HelloArrives(hello: Hello, local: bool, peer: Option<PeerIdentity>, now: Time)
    | StateArrives(state: NodeState, now: Time)
    | DrainArrives(session: string)
    | LeasesExpire(now: Time)
    | Acquired
    | LocalDrains

  function Step(p: Platform, config: Config, r: Roster, e: Event): Roster {
    match e
    case HelloArrives(hello, local, peer, now) => HelloStep(p, config, r, hello, local, peer, now)
    case StateArrives(state, now) => StateStep(p, r, state, now)
    case DrainArrives(session) => DrainStep(r, session)
    case LeasesExpire(now) => ExpireStep(r, now)
    case Acquired => Roster(map[], map[])
    case LocalDrains => LocalDrainStep(r, config.nodeId)
  }

  lemma CompatibleSymmetric(a: Hello, b: Hello)
    ensures Compatible(a, b) <==> Compatible(b, a)
  {
  }

  lemma HelloKeepsSessions(r: Roster, hello: Hello, prefix: Prefix, now: Time)
    requires SessionsLive(r)
    ensures SessionsLive(AcceptHello(r, hello, prefix, now))
  {
  }

  lemma HelloKeepsCompatible(nodes: map<string, Node>, hello: Hello, node: Node)
    requires NodesCompatible(nodes) && node.hello == hello
    requires forall id :: id in nodes && id != hello.nodeId ==> Compatible(nodes[id].hello, hello)
    ensures NodesCompatible(nodes[hello.nodeId := node])
  {
    forall id | id in nodes
      ensures Compatible(nodes[id].hello, hello) <==> Compatible(hello, nodes[id].hello)
    {
      CompatibleSymmetric(nodes[id].hello, hello);
    }
  }

  lemma HelloConsistent(p: Platform, config: Config, r: Roster, hello: Hello, local: bool, peer: Option<PeerIdentity>,
                        now: Time)
    requires Consistent(p, r)
    ensures Consistent(p, HelloStep(p, config, r, hello, local, peer, now))
  {
    if HelloValid(p, config, hello, local, peer) && !Conflicts(r.nodes, hello) {
      var completed := Completed(config, hello, local);
      var prefix := p.prefix(completed.ipv6Prefix).value;
      HelloKeepsSessions(r, completed, prefix, now);
      forall id | id in r.nodes && id != completed.nodeId
        ensures Compatible(r.nodes[id].hello, completed)
      {
        assert Compatible(r.nodes[id].hello, hello);
      }
      HelloKeepsCompatible(r.nodes, completed, Node(completed, None, now, prefix));
    }
  }

  // Replacing a node's state and receipt time leaves hellos and sessions as they were.
  lemma StoreConsistent(p: Platform, r: Roster, id: string, node: Node)
    requires Consistent(p, r) && id in r.nodes && node.hello == r.nodes[id].hello && NodeConsistent(p, id, node)
    ensures Consistent(p, r.(nodes := r.nodes[id := node]))
  {
    var next := r.(nodes := r.nodes[id := node]);
    assert forall k :: k in next.nodes ==> next.nodes[k].hello == r.nodes[k].hello;
    assert SessionsLive(next);
    assert NodesCompatible(next.nodes);
  }

  lemma RemoveConsistent(p: Platform, r: Roster, session: string)
    requires Consistent(p, r) && session in r.sessions
    ensures Consistent(p, Roster(r.nodes - {r.sessions[session]}, r.sessions - {session}))
  {
  }

  lemma StateConsistent(p: Platform, r: Roster, state: NodeState, now: Time)
    requires Consistent(p, r)
    ensures Consistent(p, StateStep(p, r, state, now))
  {
    var verdict := StateVerdictOf(p, r, state);
    if verdict == Retired {
      RemoveConsistent(p, r, state.sessionId);
    } else if verdict == Stored {
      var id := r.sessions[state.sessionId];
      assert NodeConsistent(p, id, r.nodes[id]);
      StoreConsistent(p, r, id, r.nodes[id].(state := Some(state), received := now));
    }
  }

  /** Every operation keeps the registry consistent: live sessions, agreeing NodeGroups, disjoint ownership,
      validated states under their hello's digest, endpoints inside the reported prefix. */
  lemma StepConsistent(p: Platform, config: Config, r: Roster, e: Event)
    requires Consistent(p, r)
    ensures Consistent(p, Step(p, config, r, e))
  {
    match e {
      case HelloArrives(hello, local, peer, now) => HelloConsistent(p, config, r, hello, local, peer, now);
      case StateArrives(state, now) => StateConsistent(p, r, state, now);
      case DrainArrives(session) => if session in r.sessions { RemoveConsistent(p, r, session); }
      case LeasesExpire(now) => ExpireConsistent(p, r, now);
      case Acquired =>
      case LocalDrains => LocalDrainConsistent(p, r, config.nodeId);
    }
  }

  lemma LocalDrainConsistent(p: Platform, r: Roster, nodeId: string)
    requires Consistent(p, r)
    ensures Consistent(p, LocalDrainStep(r, nodeId))
  {
  }

  lemma ExpireConsistent(p: Platform, r: Roster, now: Time)
    requires Consistent(p, r)
    ensures Consistent(p, ExpireStep(r, now))
  {
    var next := ExpireStep(r, now);
    forall session | session in next.sessions
      ensures next.sessions[session] in next.nodes && next.nodes[next.sessions[session]].hello.sessionId == session
    {
      assert r.nodes[r.sessions[session]].hello.sessionId == session;
    }
  }

  function After(p: Platform, config: Config, r: Roster, events: seq<Event>): Roster
    decreases |events|
  {
    if events == [] then r else After(p, config, Step(p, config, r, events[0]), events[1..])
  }

  /** The registry is consistent after any sequence of operations. */
  lemma {:induction false} RegistryAlwaysConsistent(p: Platform, config: Config, r: Roster, events: seq<Event>)
    requires Consistent(p, r)
    ensures Consistent(p, After(p, config, r, events))
    decreases |events|
  {
    if events != [] {
      StepConsistent(p, config, r, events[0]);
      RegistryAlwaysConsistent(p, config, Step(p, config, r, events[0]), events[1..]);
    }
  }

  // ---- Sequences of a session ----

  // The sequence last stored under a live session.
  function SequenceOf(r: Roster, session: string): Option<nat> {
    if session in r.sessions && r.sessions[session] in r.nodes && r.nodes[r.sessions[session]].state.Some? then
      Some(r.nodes[r.sessions[session]].state.value.sequence)
    else None
  }

  // The session stays registered but its stored sequence is lowered or forgotten.
  predicate Falls(before: Roster, after: Roster, session: string) {
    && session in before.sessions && session in after.sessions && SequenceOf(before, session).Some?
    && (SequenceOf(after, session).None? || SequenceOf(after, session).value < SequenceOf(before, session).value)
  }

  predicate AcceptsHello(p: Platform, config: Config, r: Roster, e: Event) {
    e.HelloArrives? && HelloValid(p, config, e.hello, e.local, e.peer) && !Conflicts(r.nodes, e.hello)
  }

  // A hello that is accepted and carries this session.
  predicate Rehellos(p: Platform, config: Config, r: Roster, e: Event, session: string) {
    AcceptsHello(p, config, r, e) && e.hello.sessionId == session
  }

  // While the session is registered, its node and hello are the same and its sequence does not fall.
  predicate Holds(r: Roster, s: Roster, session: string) {
    session in s.sessions ==>
      && session in r.sessions && s.sessions[session] == r.sessions[session]
      && r.sessions[session] in r.nodes && r.sessions[session] in s.nodes
      && s.nodes[r.sessions[session]].hello == r.nodes[r.sessions[session]].hello
      && (SequenceOf(r, session).Some? ==>
            SequenceOf(s, session).Some? && SequenceOf(r, session).value <= SequenceOf(s, session).value)
  }

  lemma HelloHolds(r: Roster, hello: Hello, prefix: Prefix, now: Time, session: string)
    requires SessionsLive(r) && session in r.sessions && hello.sessionId != session
    ensures Holds(r, AcceptHello(r, hello, prefix, now), session)
  {
    assert r.nodes[r.sessions[session]].hello.sessionId == session;
  }

  lemma StateHolds(p: Platform, r: Roster, state: NodeState, now: Time, session: string)
    requires SessionsLive(r) && session in r.sessions
    ensures Holds(r, StateStep(p, r, state, now), session)
  {
    assert r.nodes[r.sessions[session]].hello.sessionId == session;
    var verdict := StateVerdictOf(p, r, state);
    if verdict == Retired {
      assert r.nodes[r.sessions[state.sessionId]].hello.sessionId == state.sessionId;
    }
  }

  lemma RemovalHolds(r: Roster, session: string, drained: string, now: Time, nodeId: string)
    requires SessionsLive(r) && session in r.sessions
    ensures Holds(r, DrainStep(r, drained), session)
    ensures Holds(r, ExpireStep(r, now), session)
    ensures Holds(r, LocalDrainStep(r, nodeId), session)
  {
    assert r.nodes[r.sessions[session]].hello.sessionId == session;
    if drained in r.sessions {
      assert r.nodes[r.sessions[drained]].hello.sessionId == drained;
    }
  }

  // Every operation but an accepted hello with the session keeps it, or ends it.
  lemma SessionKept(p: Platform, config: Config, r: Roster, e: Event, session: string)
    requires SessionsLive(r) && session in r.sessions && !Rehellos(p, config, r, e, session)
    ensures Holds(r, Step(p, config, r, e), session)
  {
    match e {
      case HelloArrives(hello, local, peer, now) =>
        if AcceptsHello(p, config, r, e) {
          var completed := Completed(config, hello, local);
          HelloHolds(r, completed, p.prefix(completed.ipv6Prefix).value, now, session);
        } else {
          assert Step(p, config, r, e) == r;
          assert r.sessions[session] in r.nodes;
        }
      case StateArrives(state, now) => StateHolds(p, r, state, now, session);
      case DrainArrives(drained) => RemovalHolds(r, session, drained, 0, "");
      case LeasesExpire(now) => RemovalHolds(r, session, "", now, "");
      case Acquired =>
      case LocalDrains => RemovalHolds(r, session, "", 0, config.nodeId);
    }
  }

  lemma RehelloForgets(p: Platform, config: Config, r: Roster, e: Event, session: string)
    requires Rehellos(p, config, r, e, session)
    ensures var s := Step(p, config, r, e);
            session in s.sessions && s.sessions[session] == e.hello.nodeId && e.hello.nodeId in s.nodes
            && SequenceOf(s, session) == None
  {
  }

  /** One operation lowers or forgets the sequence of a session exactly when it is an accepted hello that carries the
      session again. */
  lemma SequenceFallsExactly(p: Platform, config: Config, r: Roster, e: Event, session: string)
    requires Consistent(p, r) && session in r.sessions && SequenceOf(r, session).Some?
    ensures Falls(r, Step(p, config, r, e), session) <==> Rehellos(p, config, r, e, session)
  {
    if Rehellos(p, config, r, e, session) {
      RehelloForgets(p, config, r, e, session);
    } else {
      SessionKept(p, config, r, e, session);
    }
  }

  predicate NeverRehellos(p: Platform, config: Config, r: Roster, events: seq<Event>, session: string)
    decreases |events|
  {
    events == [] || (!Rehellos(p, config, r, events[0], session)
                     && NeverRehellos(p, config, Step(p, config, r, events[0]), events[1..], session))
  }

  lemma {:induction false} SessionStaysGone(p: Platform, config: Config, r: Roster, events: seq<Event>, session: string)
    requires session !in r.sessions && NeverRehellos(p, config, r, events, session)
    ensures session !in After(p, config, r, events).sessions
    decreases |events|
  {
    if events != [] {
      SessionStaysGone(p, config, Step(p, config, r, events[0]), events[1..], session);
    }
  }

  /** Replayed or reordered states never lower the sequence of a session, over any run in which no accepted hello
      carries the session again: while it is registered, its node and hello are the same and its sequence does not
      fall. */
  lemma {:induction false} SequenceNeverFalls(p: Platform, config: Config, r: Roster, events: seq<Event>,
                                              session: string)
    requires Consistent(p, r) && session in r.sessions && NeverRehellos(p, config, r, events, session)
    ensures Holds(r, After(p, config, r, events), session)
    decreases |events|
  {
    if events == [] {
      assert r.sessions[session] in r.nodes;
    } else {
      var next := Step(p, config, r, events[0]);
      SessionKept(p, config, r, events[0], session);
      StepConsistent(p, config, r, events[0]);
      if session in next.sessions {
        SequenceNeverFalls(p, config, next, events[1..], session);
      } else {
        SessionStaysGone(p, config, next, events[1..], session);
      }
    }
  }

  // The stored form of a hello: one roster entry without a state.
  lemma RehelloStores(p: Platform, config: Config, r: Roster, e: Event, replay: NodeState)
    requires e.HelloArrives? && Rehellos(p, config, r, e, replay.sessionId)
             && replay.configDigest == e.hello.configDigest
    requires NodeStateOk(p, e.hello.nodeGroup, e.hello.services, replay)
    requires WithinPrefix(p, p.prefix(Completed(config, e.hello, e.local).ipv6Prefix).value, replay.endpoints)
    ensures StateVerdictOf(p, Step(p, config, r, e), replay) == Stored
  {
  }

  /** A repeated hello lets an older state in: after it any valid state of the session is stored, however low. */
  lemma {:induction false} RehelloLetsReplayIn(p: Platform, config: Config, r: Roster, e: Event, replay: NodeState,
                                               now: Time)
    requires e.HelloArrives? && Rehellos(p, config, r, e, replay.sessionId)
             && replay.configDigest == e.hello.configDigest
    requires NodeStateOk(p, e.hello.nodeGroup, e.hello.services, replay)
    requires WithinPrefix(p, p.prefix(Completed(config, e.hello, e.local).ipv6Prefix).value, replay.endpoints)
    ensures SequenceOf(Step(p, config, Step(p, config, r, e), StateArrives(replay, now)), replay.sessionId)
            == Some(replay.sequence)
  {
    RehelloStores(p, config, r, e, replay);
    RehelloForgets(p, config, r, e, replay.sessionId);
  }

  // A state that announces nothing.
  function Silent(hello: Hello, sequence: nat): NodeState {
    NodeState(hello.sessionId, sequence, hello.configDigest, [])
  }

  // A hello followed by a silent state: the state's sequence is the session's.
  lemma HelloThenState(p: Platform, config: Config, r: Roster, e: Event, sequence: nat, now: Time)
    requires e.HelloArrives? && AcceptsHello(p, config, r, e)
    ensures var s := Step(p, config, Step(p, config, r, e), StateArrives(Silent(e.hello, sequence), now));
            && SequenceOf(s, e.hello.sessionId) == Some(sequence)
            && (r.nodes.Keys <= {e.hello.nodeId} ==> s.nodes.Keys == {e.hello.nodeId})
  {
    RehelloLetsReplayIn(p, config, r, e, Silent(e.hello, sequence), now);
    RehelloStores(p, config, r, e, Silent(e.hello, sequence));
  }

  /** With any valid hello: announced twice with one session, as the leader announces itself every ten seconds, it lets
      a replayed state lower the sequence. */
  lemma SequenceCanFall(p: Platform, config: Config, e: Event, low: nat, high: nat)
    requires e.HelloArrives? && HelloValid(p, config, e.hello, e.local, e.peer) && low < high
    ensures var none := Roster(map[], map[]);
            var first := Step(p, config, Step(p, config, none, e), StateArrives(Silent(e.hello, high), e.now));
            var second := Step(p, config, Step(p, config, first, e), StateArrives(Silent(e.hello, low), e.now));
            && SequenceOf(first, e.hello.sessionId) == Some(high) && SequenceOf(second, e.hello.sessionId) == Some(low)
            && Falls(first, second, e.hello.sessionId)
  {
    var none := Roster(map[], map[]);
    HelloThenState(p, config, none, e, high, e.now);
    var first := Step(p, config, Step(p, config, none, e), StateArrives(Silent(e.hello, high), e.now));
    assert !Conflicts(first.nodes, e.hello);
    HelloThenState(p, config, first, e, low, e.now);
  }

  // ---- From registry to peers ----

  // The registry listed in some order.
  ghost predicate Lists(nodes: map<string, Node>, order: seq<string>) {
    Distinct(order) && forall id :: id in order <==> id in nodes
  }

  function PeersOf(nodes: map<string, Node>, order: seq<string>): (r: seq<Peer>)
    requires forall id :: id in order ==> id in nodes
    ensures |r| == |order| && forall i :: 0 <= i < |order| ==>
              r[i] == Peer(nodes[order[i]].hello, nodes[order[i]].state)
  {
    seq(|order|, i requires 0 <= i < |order| => Peer(nodes[order[i]].hello, nodes[order[i]].state))
  }

  // A consistent registry, listed in any order, is what the merge needs.
  lemma PeersConsistent(p: Platform, r: Roster, order: seq<string>)
    requires Consistent(p, r) && Lists(r.nodes, order)
    ensures RegistryOk(p, PeersOf(r.nodes, order))
  {
    var peers := PeersOf(r.nodes, order);
    forall peer | peer in peers
      ensures PeerOk(p, peer)
    {
      var i :| 0 <= i < |peers| && peers[i] == peer;
      assert NodeConsistent(p, order[i], r.nodes[order[i]]);
    }
    forall a, b | a in peers && b in peers
      ensures Compatible(a.hello, b.hello)
    {
      var i :| 0 <= i < |peers| && peers[i] == a;
      var j :| 0 <= j < |peers| && peers[j] == b;
      if i != j {
        assert order[i] != order[j];
      }
    }
  }

  function PrefixesOf(nodes: map<string, Node>, order: seq<string>): (r: seq<Prefix>)
    requires forall id :: id in order ==> id in nodes
    ensures |r| == |order| && forall i :: 0 <= i < |order| ==> r[i] == nodes[order[i]].prefix
  {
    seq(|order|, i requires 0 <= i < |order| => nodes[order[i]].prefix)
  }

  ghost predicate PrefixesDisjoint(nodes: map<string, Node>) {
    forall a, b, x :: a in nodes && b in nodes && a != b && Contains(nodes[a].prefix, x) ==>
      !Contains(nodes[b].prefix, x)
  }

  lemma RegistryDelegates(p: Platform, r: Roster, order: seq<string>)
    requires Consistent(p, r) && Lists(r.nodes, order) && PrefixesDisjoint(r.nodes)
    ensures Delegated(p, PeersOf(r.nodes, order), PrefixesOf(r.nodes, order))
  {
    var peers, prefixes := PeersOf(r.nodes, order), PrefixesOf(r.nodes, order);
    forall i, e | 0 <= i < |peers| && peers[i].state.Some? && e in peers[i].state.value.endpoints
      ensures p.address(e.address).Some? && Contains(prefixes[i], p.address(e.address).value)
    {
      EndpointInside(p, r, order[i], e);
    }
  }

  lemma EndpointInside(p: Platform, r: Roster, id: string, e: Endpoint)
    requires Consistent(p, r) && id in r.nodes && r.nodes[id].state.Some? && e in r.nodes[id].state.value.endpoints
    ensures p.address(e.address).Some? && Contains(r.nodes[id].prefix, p.address(e.address).value)
    ensures ValidDelegatedPrefix(r.nodes[id].prefix)
  {
    assert NodeConsistent(p, id, r.nodes[id]);
    var endpoints := r.nodes[id].state.value.endpoints;
    var k :| 0 <= k < |endpoints| && endpoints[k] == e;
  }

  // Two listings of one registry hold the same peers.
  lemma ListingsAgree(nodes: map<string, Node>, a: seq<string>, b: seq<string>)
    requires Lists(nodes, a) && Lists(nodes, b)
    ensures multiset(PeersOf(nodes, a)) == multiset(PeersOf(nodes, b))
  {
    var peer: string -> Option<Peer> :=
      id => if id in nodes then Some(Peer(nodes[id].hello, nodes[id].state)) else None;
    SameElements(a, b);
    MapPermuted(a, b, peer);
    ListedPeers(nodes, a, peer);
    ListedPeers(nodes, b, peer);
    MapPermuted(Map(a, peer), Map(b, peer), Unwrapped);
  }

  function Unwrapped(peer: Option<Peer>): Peer {
    if peer.Some? then peer.value else Peer(Hello("", "", "", "", "", [], ""), None)
  }

  lemma ListedPeers(nodes: map<string, Node>, order: seq<string>, peer: string -> Option<Peer>)
    requires forall id :: id in order ==> id in nodes && peer(id) == Some(Peer(nodes[id].hello, nodes[id].state))
    ensures Map(Map(order, peer), Unwrapped) == PeersOf(nodes, order)
  {
  }

  /** With disjoint delegated prefixes the published snapshot is a function of the registry: every order in which the
      map yields its nodes gives the same one. */
  lemma RegistryFixesSnapshot(p: Platform, r: Roster, a: seq<string>, b: seq<string>, generation: nat, revision: nat,
                              leader: string, s: Snapshot, items: seq<Service>, t: Snapshot, others: seq<Service>)
    requires Consistent(p, r) && PrefixesDisjoint(r.nodes) && Lists(r.nodes, a) && Lists(r.nodes, b)
    requires Built(p, PeersOf(r.nodes, a), generation, revision, leader, s, items)
    requires Built(p, PeersOf(r.nodes, b), generation, revision, leader, t, others)
    ensures s == t
  {
    PeersConsistent(p, r, a);
    RegistryDelegates(p, r, a);
    ListingsAgree(r.nodes, a, b);
    DisjointPrefixesFixOrder(p, PeersOf(r.nodes, a), PrefixesOf(r.nodes, a), PeersOf(r.nodes, b), generation, revision,
                             leader, s, items, t, others);
  }

  /** Every merged backend is an endpoint of a registered node and lies inside that node's delegated prefix. */
  lemma BackendsInsidePrefixes(p: Platform, r: Roster, order: seq<string>, generation: nat, revision: nat,
                               leader: string, snapshot: Snapshot, items: seq<Service>, s: Service, e: Endpoint)
    requires Consistent(p, r) && Lists(r.nodes, order)
    requires Built(p, PeersOf(r.nodes, order), generation, revision, leader, snapshot, items)
    requires s in snapshot.services && e in s.backends
    ensures exists id :: id in r.nodes && r.nodes[id].state.Some? && e in r.nodes[id].state.value.endpoints
                         && p.address(e.address).Some? && Contains(r.nodes[id].prefix, p.address(e.address).value)
                         && T.Plain(p.address(e.address).value)
  {
    var peers := PeersOf(r.nodes, order);
    PeersConsistent(p, r, order);
    ItemBackendService(p, peers, generation, revision, leader, snapshot, items, s, e);
    BackendOwner(peers, e);
    var i :| 0 <= i < |peers| && peers[i].state.Some? && e in peers[i].state.value.endpoints;
    var id := order[i];
    EndpointInside(p, r, id, e);
    DelegatedIsPlain(r.nodes[id].prefix, p.address(e.address).value);
  }

  // ---- Leases over runs ----

  // This operation is the hello that registered the node, or the state it holds.
  predicate Heard(p: Platform, config: Config, r: Roster, e: Event, id: string, node: Node) {
    if node.state.None? then AcceptsHello(p, config, r, e) && e.hello.nodeId == id && e.now == node.received
    else e == StateArrives(node.state.value, node.received) && StateVerdictOf(p, r, e.state) == Stored
         && r.sessions[e.state.sessionId] == id
  }

  lemma NodeHeard(p: Platform, config: Config, r: Roster, e: Event, id: string)
    requires id in Step(p, config, r, e).nodes
    ensures var node := Step(p, config, r, e).nodes[id];
            Heard(p, config, r, e, id, node) || (id in r.nodes && r.nodes[id] == node)
  {
  }

  lemma {:induction false} AfterLast(p: Platform, config: Config, r: Roster, events: seq<Event>)
    requires events != []
    ensures After(p, config, r, events) == Step(p, config, After(p, config, r, events[..|events| - 1]),
                                                events[|events| - 1])
    decreases |events|
  {
    if |events| > 1 {
      var rest := events[1..];
      AfterLast(p, config, Step(p, config, r, events[0]), rest);
      assert rest[..|rest| - 1] == events[..|events| - 1][1..];
    }
  }

  lemma {:induction false} EveryNodeHeard(p: Platform, config: Config, events: seq<Event>, id: string) returns (k: nat)
    requires id in After(p, config, Roster(map[], map[]), events).nodes
    ensures k < |events| && Heard(p, config, After(p, config, Roster(map[], map[]), events[..k]), events[k], id,
                                  After(p, config, Roster(map[], map[]), events).nodes[id])
    decreases |events|
  {
    var start, last := Roster(map[], map[]), |events| - 1;
    AfterLast(p, config, start, events);
    NodeHeard(p, config, After(p, config, start, events[..last]), events[last], id);
    if Heard(p, config, After(p, config, start, events[..last]), events[last], id,
             After(p, config, start, events).nodes[id]) {
      k := last;
    } else {
      k := EveryNodeHeard(p, config, events[..last], id);
      assert events[..last][..k] == events[..k];
    }
  }

  /** After any run that ends in an expiry, a registered node's state, or its hello if it has none, is one that was
      accepted within the lease before the expiry. */
  lemma {:induction false} LeasesHold(p: Platform, config: Config, events: seq<Event>, now: Time, id: string)
    requires id in After(p, config, Roster(map[], map[]), events + [LeasesExpire(now)]).nodes
    ensures exists k ::
              && 0 <= k < |events| && (events[k].HelloArrives? || events[k].StateArrives?)
              && now - events[k].now <= LEASE
              && Heard(p, config, After(p, config, Roster(map[], map[]), events[..k]), events[k], id,
                       After(p, config, Roster(map[], map[]), events + [LeasesExpire(now)]).nodes[id])
  {
    AfterLast(p, config, Roster(map[], map[]), events + [LeasesExpire(now)]);
    assert (events + [LeasesExpire(now)])[..|events|] == events;
    var k := EveryNodeHeard(p, config, events, id);
  }
}
