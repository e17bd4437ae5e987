// One node's coordinator: acquiring a generation, publishing under the fences, applying snapshots in stamp order,
// clearing stale backends and following local contract changes.
module Coordination {
  import opened Net
  import opened Sorting
  import opened Wire
  import opened Contracts
  import opened Merge
  import opened MergeProperties
  import opened NodeApply
  import opened Registry
  import T = Tables

  const ACQUIRE_ATTEMPTS := 5

  // A conditional write of the shared object: it may land only while the object equals what was read.
  datatype Request = Request(expected: Option<Snapshot>, body: Snapshot)

  // What this node holds outside its registry; `applied` are the services last given to DNS and dataplane.
  datatype View = View(snapshot: Option<Snapshot>, generation: nat, ready: bool, lastSnapshot: Time, stale: bool,
                       applied: seq<Service>)

  // ---- Stamps ----

  predicate Newer(a: Snapshot, b: Snapshot) {
    a.generation > b.generation || (a.generation == b.generation && a.revision > b.revision)
  }

  // ---- Contract overlay ----

  function Stripped(services: seq<Service>): (r: seq<Service>)
    ensures |r| == |services| && forall i :: 0 <= i < |r| ==> r[i] == Bare(services[i])
  {
    seq(|services|, i requires 0 <= i < |services| => Bare(services[i]))
  }

  predicate Claimed(local: seq<Service>, id: string) {
    exists i :: 0 <= i < |local| && ServiceId(local[i]) == id
  }

  // Services of other NodeGroups whose identity the local contract does not claim.
  function Remote(services: seq<Service>, nodeGroup: string, local: seq<Service>): seq<Service> {
    if services == [] then []
    else
      var front, last := Remote(services[..|services| - 1], nodeGroup, local), services[|services| - 1];
      if last.nodeGroup != nodeGroup && !Claimed(local, ServiceId(last)) then front + [last] else front
  }

  function Overlay(services: seq<Service>, nodeGroup: string, local: seq<Service>): seq<Service> {
    Sort(Remote(services, nodeGroup, local) + local, ServiceLess)
  }

  // The scan of the overlay: identities of the local contract first, then one pass over the snapshot.
  method OverlayLocalContract(services: seq<Service>, nodeGroup: string, local: seq<Service>) returns (r: seq<Service>)
    ensures r == Overlay(services, nodeGroup, local)
  {
    var identities: set<string> := {};
    for i := 0 to |local|
      invariant forall id :: id in identities <==> Claimed(local[..i], id)
    {
      assert forall id :: Claimed(local[..i + 1], id) <==> Claimed(local[..i], id) || ServiceId(local[i]) == id by {
        ClaimsStep(local, i);
      }
      identities := identities + {ServiceId(local[i])};
    }
    assert local[..|local|] == local;
    var kept: seq<Service> := [];
    for i := 0 to |services|
      invariant kept == Remote(services[..i], nodeGroup, local)
    {
      assert services[..i + 1][..i] == services[..i];
      if services[i].nodeGroup != nodeGroup && ServiceId(services[i]) !in identities {
        kept := kept + [services[i]];
      }
    }
    assert services[..|services|] == services;
    r := Sort(kept + local, ServiceLess);
  }

  lemma ClaimsStep(local: seq<Service>, i: nat)
    requires i < |local|
    ensures forall id :: Claimed(local[..i + 1], id) <==> Claimed(local[..i], id) || ServiceId(local[i]) == id
  {
    forall id
      ensures Claimed(local[..i + 1], id) <==> Claimed(local[..i], id) || ServiceId(local[i]) == id
    {
      if Claimed(local[..i], id) {
        var k :| 0 <= k < i && ServiceId(local[..i][k]) == id;
        assert ServiceId(local[..i + 1][k]) == id;
      } else if ServiceId(local[i]) == id {
        assert ServiceId(local[..i + 1][i]) == id;
      }
      if Claimed(local[..i + 1], id) {
        var k :| 0 <= k < i + 1 && ServiceId(local[..i + 1][k]) == id;
        assert k < i ==> ServiceId(local[..i][k]) == id;
      }
    }
  }

  // ---- Acquisition ----

  // The first snapshot of a new generation: no backends, the local contract overlaid.
  function AcquireCandidate(nodeId: string, nodeGroup: string, read: Option<Snapshot>, local: seq<Service>): Snapshot {
    match read
    case None => Snapshot(1, 0, nodeId, "", Overlay([], nodeGroup, local))
    case Some(current) =>
      current.(generation := current.generation + 1, revision := 0, leader := nodeId,
               services := Overlay(Stripped(current.services), nodeGroup, local))
  }

  // No identity appears twice.
  predicate OwnershipOk(snapshot: Snapshot) {
    Distinct(Map(snapshot.services, ServiceId))
  }

  method ValidateSnapshotOwnership(snapshot: Snapshot) returns (ok: bool)
    ensures ok <==> OwnershipOk(snapshot)
  {
    var seen: set<string> := {};
    ghost var ids := Map(snapshot.services, ServiceId);
    for i := 0 to |snapshot.services|
      invariant Seen(ids, i, seen)
    {
      SeenNext(ids, i, seen);
      var id := ServiceId(snapshot.services[i]);
      if id in seen {
        return false;
      }
      seen := seen + {id};
    }
    assert ids[..|ids|] == ids;
    ok := true;
  }

  datatype Reply = Stored | Conflict | Failed

  // One attempt's read of the durable object (None when it cannot be read) and the answer to its write.
  datatype Attempt = Attempt(read: Option<Option<Snapshot>>, reply: Reply)

  // What each attempt would write: nothing when the read fails or two NodeGroups claim one identity.
  function Candidates(nodeId: string, nodeGroup: string, local: seq<Service>,
                      attempts: seq<Attempt>): (r: seq<Option<Request>>)
    ensures |r| == |attempts|
    ensures forall k :: 0 <= k < |r| ==> r[k] == CandidateOf(nodeId, nodeGroup, local, attempts[k])
  {
    seq(|attempts|, k requires 0 <= k < |attempts| => CandidateOf(nodeId, nodeGroup, local, attempts[k]))
  }

  function CandidateOf(nodeId: string, nodeGroup: string, local: seq<Service>, attempt: Attempt): Option<Request> {
    if attempt.read.None? then None
    else
      var candidate := AcquireCandidate(nodeId, nodeGroup, attempt.read.value, local);
      if OwnershipOk(candidate) then Some(Request(attempt.read.value, candidate)) else None
  }

  // The writes issued from attempt k on: a further one only after a conflict.
  function AcquireRequests(attempts: seq<Attempt>, candidates: seq<Option<Request>>, k: nat): seq<Request>
    requires k <= |candidates| == |attempts|
    decreases |attempts| - k
  {
    if k == |attempts| || candidates[k].None? then []
    else
      [candidates[k].value]
      + if attempts[k].reply == Conflict then AcquireRequests(attempts, candidates, k + 1) else []
  }

  lemma RequestStep(done: seq<Request>, attempts: seq<Attempt>, candidates: seq<Option<Request>>, k: nat)
    requires k < |candidates| == |attempts| && candidates[k].Some?
    ensures done + AcquireRequests(attempts, candidates, k)
         == done + [candidates[k].value]
            + if attempts[k].reply == Conflict then AcquireRequests(attempts, candidates, k + 1) else []
  {
  }

  // The candidate whose write was reported stored, if any.
  function AcquireWins(attempts: seq<Attempt>, candidates: seq<Option<Request>>, k: nat): Option<Snapshot>
    requires k <= |candidates| == |attempts|
    decreases |attempts| - k
  {
    if k == |attempts| || candidates[k].None? then None
    else match attempts[k].reply
      case Stored => Some(candidates[k].value.body)
      case Conflict => AcquireWins(attempts, candidates, k + 1)
      case Failed => None
  }

  lemma {:induction false} AcquireRequestsAre(attempts: seq<Attempt>, candidates: seq<Option<Request>>, from: nat,
                                              i: nat)
    requires from <= |candidates| == |attempts| && i < |AcquireRequests(attempts, candidates, from)|
    ensures from + i < |attempts| && candidates[from + i] == Some(AcquireRequests(attempts, candidates, from)[i])
    decreases |attempts| - from
  {
    if i > 0 {
      AcquireRequestsAre(attempts, candidates, from + 1, i - 1);
    }
  }

  lemma {:induction false} AcquireFrom(attempts: seq<Attempt>, candidates: seq<Option<Request>>, from: nat)
    requires from <= |candidates| == |attempts|
    ensures var n, won := |AcquireRequests(attempts, candidates, from)|, AcquireWins(attempts, candidates, from);
            && from + n <= |attempts|
            && (won.Some? <==> n > 0 && attempts[from + n - 1].reply == Reply.Stored)
            && (won.Some? ==> candidates[from + n - 1].Some? && won.value == candidates[from + n - 1].value.body)
            && (forall i :: from <= i < from + n - 1 ==> attempts[i].reply == Conflict)
            && ((forall j :: from <= j < |attempts| ==> candidates[j].Some? && attempts[j].reply == Conflict) ==>
                  n == |attempts| - from)
    decreases |attempts| - from
  {
    if from < |attempts| && candidates[from].Some? && attempts[from].reply == Conflict {
      AcquireFrom(attempts, candidates, from + 1);
    }
  }

  /** An acquisition is won if and only if the last write it issued was answered as stored, every one before it having
      met a conflict, and what is won is that write. Each write is what its own attempt made of what it read. If every
      attempt meets a conflict it gives up after five writes. */
  lemma {:induction false} AcquireExactly(attempts: seq<Attempt>, candidates: seq<Option<Request>>)
    requires |candidates| == |attempts|
    ensures var requests, won := AcquireRequests(attempts, candidates, 0), AcquireWins(attempts, candidates, 0);
            && |requests| <= |attempts|
            && (won.Some? <==> requests != [] && attempts[|requests| - 1].reply == Reply.Stored)
            && (won.Some? ==> won.value == requests[|requests| - 1].body)
            && (forall i :: 0 <= i < |requests| ==> candidates[i] == Some(requests[i]))
            && (forall i :: 0 <= i < |requests| - 1 ==> attempts[i].reply == Conflict)
            && (|attempts| == ACQUIRE_ATTEMPTS ==>
                  (forall j :: 0 <= j < |attempts| ==> candidates[j].Some? && attempts[j].reply == Conflict) ==>
                  |requests| == 5)
  {
    AcquireFrom(attempts, candidates, 0);
    forall i | 0 <= i < |AcquireRequests(attempts, candidates, 0)|
      ensures candidates[i] == Some(AcquireRequests(attempts, candidates, 0)[i])
    {
      AcquireRequestsAre(attempts, candidates, 0, i);
    }
  }

  // ---- Publication ----

  function NextRevision(v: View): nat {
    if v.snapshot.Some? && v.snapshot.value.generation == v.generation then v.snapshot.value.revision + 1 else 1
  }

  // What a leader holds agrees with the durable snapshot of its generation, which is untouched if it holds none.
  predicate InStep(held: Option<Snapshot>, d: Snapshot) {
    if held.Some? && held.value.generation == d.generation then held.value.revision == d.revision else d.revision == 0
  }

  // The fences between the built snapshot and the durable one.
  predicate Fenced(nodeId: string, durable: Snapshot, snapshot: Snapshot) {
    durable.generation == snapshot.generation && durable.leader == nodeId && durable.revision + 1 == snapshot.revision
  }

  // ---- Applying ----

  // Whether apply would hand this snapshot to the controller.
  predicate Advances(v: View, s: Snapshot) {
    v.snapshot.None? || Newer(s, v.snapshot.value)
  }

  function Accepted(v: View, s: Snapshot, chosen: seq<Service>, now: Time): View {
    v.(snapshot := Some(s), lastSnapshot := now, stale := false, applied := chosen)
  }

  predicate StaleNow(v: View, now: Time) {
    !v.stale && v.snapshot.Some? && now - v.lastSnapshot > LEASE
  }

  // The services a local transition starts from.
  function Carried(v: View): seq<Service> {
    if v.snapshot.None? then [] else if v.stale then Stripped(v.snapshot.value.services) else v.snapshot.value.services
  }

  /** The coordinator itself. `local` arguments are the controller's contract at the time of the call. */
  class Coordinator {
    const p: Platform
    const config: Config
    var nodes: map<string, Node>
    var sessions: map<string, string>
    var snapshot: Option<Snapshot>
    var generation: nat
    var ready: bool
    var lastSnapshot: Time
    var stale: bool
    var applied: seq<Service>

    constructor (p: Platform, config: Config)
      ensures this.p == p && this.config == config
      ensures Entries() == Roster(map[], map[]) && Held() == View(None, 0, false, 0, false, [])
    {
      this.p, this.config := p, config;
      nodes, sessions, snapshot, generation := map[], map[], None, 0;
      ready, lastSnapshot, stale, applied := false, 0, false, [];
    }

    function Entries(): Roster
      reads this
    {
      Roster(nodes, sessions)
    }

    function Held(): View
      reads this
    {
      View(snapshot, generation, ready, lastSnapshot, stale, applied)
    }

    // Looks for a node whose hello is incompatible, in whatever order the map yields them.
    method FindConflict(hello: Hello) returns (found: bool)
      ensures found <==> Conflicts(nodes, hello)
    {
      var rest := nodes.Keys;
      while rest != {}
        invariant rest <= nodes.Keys
        invariant forall id :: id in nodes && id !in rest && id != hello.nodeId ==> Compatible(nodes[id].hello, hello)
        decreases |rest|
      {
        var id :| id in rest;
        rest := rest - {id};
        if id != hello.nodeId {
          var other := nodes[id].hello;
          if other.nodeGroup == hello.nodeGroup {
            if other.configDigest != hello.configDigest || other.services != hello.services {
              return true;
            }
          } else {
            var overlap := ContractsOverlap(other.services, hello.services);
            if overlap {
              return true;
            }
          }
        }
      }
      found := false;
    }

    method HandleHello(hello: Hello, local: bool, peer: Option<PeerIdentity>, now: Time)
      returns (ok: bool, reply: Option<Snapshot>)
      modifies this`nodes, this`sessions
      ensures Entries() == HelloStep(p, config, old(Entries()), hello, local, peer, now)
      ensures ok <==> HelloValid(p, config, hello, local, peer) && !Conflicts(old(nodes), hello)
      ensures reply == if ok then snapshot else None
    {
      ok, reply := false, None;
      var contractOk := ValidateContract(p, hello.nodeGroup, hello.configDigest, hello.services);
      if hello.nodeId == "" || hello.cluster != p.cluster || hello.sessionId == "" || !contractOk {
        return;
      }
      var completed := hello;
      if local && hello.ipv6Prefix == "" {
        completed := hello.(ipv6Prefix := config.prefixText);
      }
      var prefix := p.prefix(completed.ipv6Prefix);
      if prefix.None? || !ValidDelegatedPrefix(prefix.value) {
        return;
      }
      if !local {
        if peer.None? || peer.value.nodeId != hello.nodeId || peer.value.nodeGroup != hello.nodeGroup {
          return;
        }
      } else if prefix.value != config.prefix {
        return;
      }
      var conflict := FindConflict(hello);
      if conflict {
        return;
      }
      if hello.nodeId in nodes {
        sessions := sessions - {nodes[hello.nodeId].hello.sessionId};
      }
      sessions := sessions[completed.sessionId := completed.nodeId];
      nodes := nodes[completed.nodeId := Node(completed, None, now, prefix.value)];
      ok, reply := true, snapshot;
    }

    method HandleNodeState(state: NodeState, now: Time) returns (verdict: StateVerdict)
      modifies this`nodes, this`sessions
      ensures verdict == StateVerdictOf(p, old(Entries()), state)
      ensures Entries() == StateStep(p, old(Entries()), state, now)
    {
      if state.sessionId !in sessions || sessions[state.sessionId] !in nodes {
        return UnknownSession;
      }
      var id := sessions[state.sessionId];
      var node := nodes[id];
      if node.hello.sessionId != state.sessionId {
        return UnknownSession;
      }
      if node.hello.configDigest != state.configDigest {
        sessions, nodes := sessions - {state.sessionId}, nodes - {id};
        return Retired;
      }
      var valid := ValidateNodeState(p, node.hello.nodeGroup, node.hello.services, state);
      if !valid {
        return Refused;
      }
      for i := 0 to |state.endpoints|
        invariant forall k :: 0 <= k < i ==>
          p.address(state.endpoints[k].address).Some?
            && Contains(node.prefix, p.address(state.endpoints[k].address).value)
      {
        var address := p.address(state.endpoints[i].address);
        if address.None? || !Contains(node.prefix, address.value) {
          return Refused;
        }
      }
      if node.state.Some? && state.sequence <= node.state.value.sequence {
        return Replayed;
      }
      nodes := nodes[id := node.(state := Some(state), received := now)];
      verdict := StateVerdict.Stored;
    }

    method HandleDrain(session: string)
      modifies this`nodes, this`sessions
      ensures Entries() == DrainStep(old(Entries()), session)
    {
      if session in sessions {
        var id := sessions[session];
        sessions := sessions - {session};
        if id in nodes && nodes[id].hello.sessionId == session {
          nodes := nodes - {id};
        }
      } else {
        assert sessions - {session} == sessions;
      }
    }

    // Removes every node whose last accepted message is older than the lease, with its session.
    method ExpireLeases(now: Time) returns (changed: bool)
      modifies this`nodes, this`sessions
      ensures Entries() == ExpireStep(old(Entries()), now)
      ensures changed <==> Lapsed(old(nodes), now) != {}
    {
      changed := false;
      var rest := nodes.Keys;
      ghost var before, gone: set<string> := Entries(), {};
      assert RemoveNodes(before, {}) == before;
      while rest != {}
        invariant Expiring(before, rest, gone, now) && (changed <==> gone != {})
        invariant Entries() == RemoveNodes(before, gone)
        decreases |rest|
      {
        var id :| id in rest;
        ExpiringStep(before, rest, gone, id, now);
        if now - nodes[id].received > LEASE {
          DropNode(id);
          gone := gone + {id};
          changed := true;
        }
        rest := rest - {id};
      }
      assert gone == Lapsed(before.nodes, now);
      ExpiryIsRemoval(before, now);
    }

    method DropNode(id: string)
      requires id in nodes
      modifies this`nodes, this`sessions
      ensures Entries() == Roster(old(nodes) - {id}, old(sessions) - {old(nodes)[id].hello.sessionId})
    {
      sessions := sessions - {nodes[id].hello.sessionId};
      nodes := nodes - {id};
    }

    // The leader's own drain: all sessions of this node, and the node.
    method DrainLocal()
      modifies this`nodes, this`sessions
      ensures Entries() == LocalDrainStep(old(Entries()), config.nodeId)
    {
      var rest := sessions.Keys;
      ghost var before, mine: set<string> := Entries(), {};
      assert RemoveSessions(before, {}, config.nodeId) == before;
      while rest != {}
        invariant rest <= before.sessions.Keys && mine <= before.sessions.Keys && mine !! rest
        invariant forall s :: s in before.sessions && s !in rest ==>
                    (s in mine <==> before.sessions[s] == config.nodeId)
        invariant Entries() == RemoveSessions(before, mine, config.nodeId)
        decreases |rest|
      {
        var session :| session in rest;
        rest := rest - {session};
        if sessions[session] == config.nodeId {
          RemoveSessionMore(before, mine, session, config.nodeId);
          sessions := sessions - {session};
          nodes := nodes - {config.nodeId};
          mine := mine + {session};
        }
      }
      assert mine == set session | session in before.sessions && before.sessions[session] == config.nodeId;
    }

    // The state change of a successful application.
    method Install(s: Snapshot, services: seq<Service>, now: Time)
      modifies this`snapshot, this`lastSnapshot, this`stale, this`applied
      ensures Held() == Accepted(old(Held()), s, services, now)
    {
      snapshot, lastSnapshot, stale, applied := Some(s), now, false, services;
    }

    // The state change of withdrawing stale backends.
    method Withdraw(services: seq<Service>)
      modifies this`stale, this`applied
      ensures Held() == old(Held()).(stale := true, applied := services)
    {
      stale, applied := true, services;
    }

    // The state change of taking a generation.
    method Take(taken: nat)
      modifies this`generation, this`nodes, this`sessions
      ensures Held() == old(Held()).(generation := taken) && Entries() == Roster(map[], map[])
    {
      generation := taken;
      nodes, sessions := map[], map[];
    }

    // Applies a snapshot only when its stamp is newer; a failed application changes nothing.
    method Apply(s: Snapshot, local: seq<Service>, reconciles: bool, now: Time)
      returns (ok: bool, ghost chosen: seq<Service>)
      modifies this`snapshot, this`lastSnapshot, this`stale, this`applied
      ensures !Advances(old(Held()), s) ==> ok && Held() == old(Held())
      ensures Advances(old(Held()), s) ==> Chosen(local, config.nodeGroup, s.services, chosen)
      ensures Advances(old(Held()), s) ==> (ok <==> Applies(p, chosen) && reconciles)
      ensures Advances(old(Held()), s) && ok ==> Held() == Accepted(old(Held()), s, chosen, now)
      ensures !ok ==> Held() == old(Held())
      ensures old(snapshot).None? || s.generation > old(snapshot).value.generation
              || (s.generation == old(snapshot).value.generation && s.revision > old(snapshot).value.revision) ==>
                ok ==> snapshot == Some(s) && lastSnapshot == now && !stale && applied == chosen
      ensures old(snapshot).Some? && (s.generation < old(snapshot).value.generation
              || (s.generation == old(snapshot).value.generation && s.revision <= old(snapshot).value.revision)) ==>
                ok && Held() == old(Held())
    {
      chosen := [];
      if snapshot.Some? && (s.generation < snapshot.value.generation
                            || (s.generation == snapshot.value.generation && s.revision <= snapshot.value.revision)) {
        return true, chosen;
      }
      var prepared, _, _, services := Prepare(p, local, config.nodeGroup, config.node, s);
      chosen := services;
      ok := prepared && reconciles;
      if ok {
        Install(s, services, now);
      }
    }

    // A follower that lost fresh snapshots withdraws every backend and keeps the identities.
    method ClearStale(now: Time, local: seq<Service>, later: seq<Service>, reconciles: bool)
      returns (ghost chosen: seq<Service>)
      modifies this`stale, this`applied
      ensures old(stale) || snapshot.None? || now - lastSnapshot <= 35_000_000_000 ==> Held() == old(Held())
      ensures !old(stale) && snapshot.Some? && now - lastSnapshot > 35_000_000_000 ==>
                && Chosen(later, config.nodeGroup, Overlay(Stripped(snapshot.value.services), config.nodeGroup, local),
                          chosen)
                && Held()
                   == if Applies(p, chosen) && reconciles then old(Held()).(stale := true, applied := chosen)
                      else old(Held())
    {
      chosen := [];
      if stale || snapshot.None? || now - lastSnapshot <= LEASE {
        return;
      }
      var services := OverlayLocalContract(Stripped(snapshot.value.services), config.nodeGroup, local);
      var cleared := snapshot.value.(services := services);
      var prepared, _, _, result := Prepare(p, later, config.nodeGroup, config.node, cleared);
      chosen := result;
      if prepared && reconciles {
        Withdraw(result);
      }
    }

    // A local contract change is applied at once; the snapshot itself stays as accepted.
    method ApplyLocalTransition(local: seq<Service>, later: seq<Service>, reconciles: bool)
      returns (ok: bool, ghost chosen: seq<Service>)
      modifies this`applied
      ensures Chosen(later, config.nodeGroup, Overlay(Carried(old(Held())), config.nodeGroup, local), chosen)
      ensures ok <==> Applies(p, chosen) && reconciles
      ensures Held() == if ok then old(Held()).(applied := chosen) else old(Held())
    {
      var services := if snapshot.None? then [] else snapshot.value.services;
      if stale {
        services := Stripped(services);
      }
      var overlaid := OverlayLocalContract(services, config.nodeGroup, local);
      var prepared, _, _, result := Prepare(p, later, config.nodeGroup, config.node, Snapshot(0, 0, "", "", overlaid));
      chosen := result;
      ok := prepared && reconciles;
      if ok {
        applied := result;
      }
    }

    // Takes a new generation: at most five conditional writes, each on top of exactly what was read.
    method Acquire(local: seq<Service>, attempts: seq<Attempt>, later: seq<Service>, reconciles: bool, now: Time)
      returns (ok: bool, requests: seq<Request>, ghost chosen: seq<Service>)
      requires |attempts| == ACQUIRE_ATTEMPTS
      modifies this
      ensures requests == AcquireRequests(attempts, Candidates(config.nodeId, config.nodeGroup, local, attempts), 0)
      ensures var won := AcquireWins(attempts, Candidates(config.nodeId, config.nodeGroup, local, attempts), 0);
              && (won.None? ==> !ok && Held() == old(Held()) && Entries() == old(Entries()))
              && (won.Some? ==>
                    var taken := old(Held()).(generation := won.value.generation);
                    && Entries() == Roster(map[], map[])
                    && (Advances(taken, won.value) ==>
                          && Chosen(later, config.nodeGroup, won.value.services, chosen)
                          && (ok <==> Applies(p, chosen) && reconciles)
                          && Held() == if ok then Accepted(taken, won.value, chosen, now).(ready := true) else taken)
                    && (!Advances(taken, won.value) ==> ok && Held() == taken.(ready := true)))
    {
      chosen := [];
      var won;
      won, requests := CompareAndSwap(local, attempts);
      ok := false;
      if won.Some? {
        Take(won.value.generation);
        ok, chosen := Apply(won.value, later, reconciles, now);
        if ok {
          ready := true;
        }
      }
    }

    // The bounded loop: a conflict rereads and tries again, anything else ends it.
    method CompareAndSwap(local: seq<Service>, attempts: seq<Attempt>)
      returns (won: Option<Snapshot>, requests: seq<Request>)
      requires |attempts| == ACQUIRE_ATTEMPTS
      ensures requests == AcquireRequests(attempts, Candidates(config.nodeId, config.nodeGroup, local, attempts), 0)
      ensures won == AcquireWins(attempts, Candidates(config.nodeId, config.nodeGroup, local, attempts), 0)
    {
      won, requests := None, [];
      ghost var candidates := Candidates(config.nodeId, config.nodeGroup, local, attempts);
      for k := 0 to |attempts|
        invariant won.None?
        invariant AcquireRequests(attempts, candidates, 0) == requests + AcquireRequests(attempts, candidates, k)
        invariant AcquireWins(attempts, candidates, 0) == AcquireWins(attempts, candidates, k)
      {
        var candidate := TryCandidate(attempts[k], local);
        assert candidates[k] == candidate;
        if candidate.None? {
          return;
        }
        RequestStep(requests, attempts, candidates, k);
        requests := requests + [candidate.value];
        if attempts[k].reply == Reply.Stored {
          return Some(candidate.value.body), requests;
        }
        if attempts[k].reply == Failed {
          return;
        }
      }
    }

    method TryCandidate(attempt: Attempt, local: seq<Service>) returns (candidate: Option<Request>)
      ensures candidate == CandidateOf(config.nodeId, config.nodeGroup, local, attempt)
    {
      if attempt.read.None? {
        return None;
      }
      var made := MakeCandidate(attempt.read.value, local);
      var owned := ValidateSnapshotOwnership(made);
      candidate := if owned then Some(Request(attempt.read.value, made)) else None;
    }

    method MakeCandidate(read: Option<Snapshot>, local: seq<Service>) returns (candidate: Snapshot)
      ensures candidate == AcquireCandidate(config.nodeId, config.nodeGroup, read, local)
    {
      var current := if read.Some? then read.value else Snapshot(0, 0, "", "", []);
      var services := OverlayLocalContract(Stripped(current.services), config.nodeGroup, local);
      candidate := current.(generation := current.generation + 1, revision := 0, leader := config.nodeId,
                            services := services);
      assert Stripped([]) == [];
    }

    // Lists the registry in whatever order the map yields.
    method ListNodes() returns (order: seq<string>, peers: seq<Peer>)
      ensures Lists(nodes, order) && peers == PeersOf(nodes, order)
    {
      order, peers := [], [];
      var rest := nodes.Keys;
      while rest != {}
        invariant rest <= nodes.Keys && Distinct(order)
        invariant forall id :: id in order <==> id in nodes && id !in rest
        invariant peers == PeersOf(nodes, order)
        decreases |rest|
      {
        var id :| id in rest;
        rest := rest - {id};
        peers := peers + [Peer(nodes[id].hello, nodes[id].state)];
        order := order + [id];
      }
    }

    // Builds, fences, writes and applies one snapshot. `read` is the durable object as read back.
    method Publish(leads: bool, read: Option<Option<Snapshot>>, stillLeads: bool, reply: Reply, local: seq<Service>,
                   reconciles: bool, now: Time)
      returns (ok: bool, request: Option<Request>, ghost order: seq<string>, ghost items: seq<Service>,
               ghost chosen: seq<Service>)
      modifies this`snapshot, this`lastSnapshot, this`stale, this`applied
      ensures Lists(nodes, order)
      ensures request.Some? ==>
                && leads && stillLeads && read == Some(request.value.expected) && request.value.expected.Some?
                && Built(p, PeersOf(nodes, order), generation, NextRevision(old(Held())), config.nodeId,
                         request.value.body, items)
                && Fenced(config.nodeId, request.value.expected.value, request.value.body)
      ensures request.None? ==>
                !leads || !stillLeads || !OneOwner(Slots(PeersOf(nodes, order))) || read.None? || read.value.None?
                || read.value.value.generation != generation || read.value.value.leader != config.nodeId
                || read.value.value.revision + 1 != NextRevision(old(Held()))
      ensures leads && stillLeads && OneOwner(Slots(PeersOf(nodes, order))) && read.Some? && read.value.Some? ==>
                var d := read.value.value;
                d.generation == generation && d.leader == config.nodeId && InStep(old(snapshot), d) ==>
                  && request.Some? && request.value.expected == Some(d)
                  && request.value.body.generation == d.generation && request.value.body.revision == d.revision + 1
                  && request.value.body.leader == config.nodeId
      ensures request.None? || reply != Reply.Stored ==> !ok && Held() == old(Held())
      ensures request.Some? && reply == Reply.Stored ==>
                var s, v := request.value.body, old(Held());
                && (!Advances(v, s) ==> ok && Held() == v)
                && (Advances(v, s) ==>
                      && Chosen(local, config.nodeGroup, s.services, chosen)
                      && (ok <==> Applies(p, chosen) && reconciles)
                      && Held() == if ok then Accepted(v, s, chosen, now) else v)
    {
      ok, request, items, chosen := false, None, [], [];
      var listed, peers := ListNodes();
      order := listed;
      if !leads {
        return;
      }
      var revision := 1;
      if snapshot.Some? && snapshot.value.generation == generation {
        revision := snapshot.value.revision + 1;
      }
      var built;
      built, items := BuildClusterSnapshot(p, generation, revision, config.nodeId, peers);
      if built.None? || read.None? || read.value.None? {
        return;
      }
      var durable := read.value.value;
      if durable.generation != generation || durable.leader != config.nodeId || durable.revision + 1 != revision
         || !stillLeads {
        return;
      }
      request := Some(Request(read.value, built.value));
      if reply == Reply.Stored {
        ok, chosen := Apply(built.value, local, reconciles, now);
      }
    }
  }

  // A registry without some nodes and their sessions.
  ghost function RemoveNodes(r: Roster, gone: set<string>): Roster
    requires gone <= r.nodes.Keys
  {
    Roster(r.nodes - gone, r.sessions - set id | id in gone :: r.nodes[id].hello.sessionId)
  }

  // The scan of the registry: of the nodes looked at, exactly the lapsed ones are gone.
  ghost predicate Expiring(r: Roster, rest: set<string>, gone: set<string>, now: Time) {
    && rest <= r.nodes.Keys && gone <= r.nodes.Keys - rest
    && forall id :: id in r.nodes && id !in rest ==> (id in gone <==> now - r.nodes[id].received > LEASE)
  }

  lemma ExpiringStep(r: Roster, rest: set<string>, gone: set<string>, id: string, now: Time)
    requires Expiring(r, rest, gone, now) && id in rest
    ensures var some := RemoveNodes(r, gone); id in some.nodes && some.nodes[id] == r.nodes[id]
    ensures now - r.nodes[id].received > LEASE ==>
              && Expiring(r, rest - {id}, gone + {id}, now)
              && RemoveNodes(r, gone + {id})
                 == Roster(RemoveNodes(r, gone).nodes - {id},
                           RemoveNodes(r, gone).sessions - {r.nodes[id].hello.sessionId})
    ensures now - r.nodes[id].received <= LEASE ==> Expiring(r, rest - {id}, gone, now)
  {
    RemoveOneMore(r, gone, id);
  }

  lemma ExpiryIsRemoval(r: Roster, now: Time)
    ensures RemoveNodes(r, Lapsed(r.nodes, now)) == ExpireStep(r, now)
  {
  }

  lemma RemoveOneMore(r: Roster, gone: set<string>, id: string)
    requires gone <= r.nodes.Keys && id in r.nodes && id !in gone
    ensures var some := RemoveNodes(r, gone);
            && id in some.nodes && some.nodes[id] == r.nodes[id]
            && RemoveNodes(r, gone + {id}) == Roster(some.nodes - {id}, some.sessions - {r.nodes[id].hello.sessionId})
  {
    var more := gone + {id};
    assert (set k | k in more :: r.nodes[k].hello.sessionId)
        == (set k | k in gone :: r.nodes[k].hello.sessionId) + {r.nodes[id].hello.sessionId};
  }

  // A registry without some sessions and, if there are any, without the node they belong to.
  ghost function RemoveSessions(r: Roster, mine: set<string>, nodeId: string): Roster {
    Roster(if mine == {} then r.nodes else r.nodes - {nodeId}, r.sessions - mine)
  }

  lemma RemoveSessionMore(r: Roster, mine: set<string>, session: string, nodeId: string)
    ensures var some := RemoveSessions(r, mine, nodeId);
            RemoveSessions(r, mine + {session}, nodeId) == Roster(some.nodes - {nodeId}, some.sessions - {session})
  {
  }

  method ContractsOverlap(left: seq<Service>, right: seq<Service>) returns (overlap: bool)
    ensures overlap <==> Overlap(left, right)
  {
    var identities: set<string> := {};
    for i := 0 to |left|
      invariant forall id :: id in identities <==> exists k :: 0 <= k < i && ServiceId(left[k]) == id
    {
      identities := identities + {ServiceId(left[i])};
    }
    for j := 0 to |right|
      invariant forall k :: 0 <= k < j ==> ServiceId(right[k]) !in identities
    {
      if ServiceId(right[j]) in identities {
        return true;
      }
    }
    overlap := false;
  }
}
