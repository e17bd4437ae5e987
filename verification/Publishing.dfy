// That publication gets anywhere: from every reachable state a node can take a generation, and a node that leads can
// publish its registry again and again, each time one revision higher.
module Publishing {
  import opened Net
  import opened Sorting
  import opened Wire
  import opened Contracts
  import opened Merge
  import opened MergeProperties
  import opened NodeApply
  import opened Registry
  import opened Coordination
  import opened CoordinationRuns

  ghost predicate Reaches(p: Platform, w: World, events: seq<CoordinationRuns.Event>, v: World) {
    Run(p, w, events) && CoordinationRuns.After(p, w, events) == v
  }

  lemma {:induction false} ReachesOne(p: Platform, w: World, e: CoordinationRuns.Event)
    requires Enabled(p, w, e)
    ensures Reaches(p, w, [e], CoordinationRuns.Step(p, w, e))
  {
    assert [e][1..] == [];
    assert Run(p, CoordinationRuns.Step(p, w, e), [e][1..]);
  }

  lemma {:induction false} ReachesOn(p: Platform, u: World, a: seq<CoordinationRuns.Event>, w: World,
                                     b: seq<CoordinationRuns.Event>, v: World)
    requires Reaches(p, u, a, w) && Reaches(p, w, b, v)
    ensures Reaches(p, u, a + b, v)
    decreases |a|
  {
    if a == [] {
      assert a + b == b;
    } else {
      ReachesOn(p, CoordinationRuns.Step(p, u, a[0]), a[1..], w, b, v);
      assert (a + b)[1..] == a[1..] + b;
    }
  }

  lemma {:induction false} ReachesNext(p: Platform, u: World, a: seq<CoordinationRuns.Event>, w: World,
                                       e: CoordinationRuns.Event)
    requires Reaches(p, u, a, w) && Enabled(p, w, e)
    ensures Reaches(p, u, a + [e], CoordinationRuns.Step(p, w, e))
  {
    ReachesOne(p, w, e);
    ReachesOn(p, u, a, w, [e], CoordinationRuns.Step(p, w, e));
  }

  // ---- Witnesses: an order of the nodes, a built snapshot, a choice ----

  lemma {:induction false} ListingExists(keys: set<string>) returns (order: seq<string>)
    ensures Distinct(order) && forall id :: id in order <==> id in keys
    decreases |keys|
  {
    order := [];
    if keys != {} {
      var id :| id in keys;
      var rest := ListingExists(keys - {id});
      order := rest + [id];
    }
  }

  function FilledItem(slot: Slot, claims: seq<Claim>): Service {
    slot.item.(backends := Sort(slot.item.backends + Gather(claims, slot), EndpointLess))
  }

  lemma BuiltExists(p: Platform, peers: seq<Peer>, generation: nat, revision: nat, leader: string)
    returns (snapshot: Snapshot, items: seq<Service>)
    ensures Built(p, peers, generation, revision, leader, snapshot, items)
  {
    MergeOrders();
    var slots, claims := Slots(peers), Claims(peers);
    items := seq(|slots|, i requires 0 <= i < |slots| => FilledItem(slots[i], claims));
    forall i | 0 <= i < |slots|
      ensures ItemFor(slots[i], claims, items[i])
    {
      SortSorted(slots[i].item.backends + Gather(claims, slots[i]), EndpointLess);
    }
    SortSorted(items, ServiceLess);
    snapshot := Snapshot(generation, revision, leader, p.digest(DigestText(peers, Sort(GroupList(peers), StringLess))),
                         Sort(items, ServiceLess));
  }

  lemma ApplicationExists(nodeGroup: string, services: seq<Service>, local: seq<Service>, now: Time)
    returns (a: Application)
    requires BareContract(local)
    ensures Proper(nodeGroup, services, a) && a.succeeds && a.local == local && a.now == now
  {
    MergeOrders();
    var s := Select(services, nodeGroup, Wanted(local));
    SortSorted(s.kept + Leftover(local, s.rest), ServiceLess);
    a := Application(local, Sort(s.kept + Leftover(local, s.rest), ServiceLess), true, now);
  }

  // ---- One publication ----

  // The node is idle and holds the durable snapshot's stamp, which names it as leader.
  predicate Leading(w: World, node: string) {
    && node in w.members && w.members[node].op == Idle && Durable(w).Some?
    && var m, d := w.members[node], Durable(w).value;
       && d.leader == node && m.view.generation == d.generation
       && m.view.snapshot.Some? && m.view.snapshot.value.generation == d.generation
       && m.view.snapshot.value.revision == d.revision
  }

  // The log has one more record: the publication of this node's registry, one revision above the one before.
  ghost predicate PublishedNext(p: Platform, w: World, node: string, v: World) {
    && |v.log| == |w.log| + 1 && w.log <= v.log && Leading(w, node)
    && Due(p, w.members[node].roster, Durable(w).value.generation, Durable(w).value.revision + 1, node, v.log[|w.log|])
    && v.log[|w.log|].snapshot in v.broadcast
  }

  // Only this member differs.
  ghost predicate OthersKept(w: World, v: World, node: string) {
    v.members.Keys == w.members.Keys && forall n :: n in w.members && n != node ==> v.members[n] == w.members[n]
  }

  // The record publishes this roster under this stamp.
  ghost predicate Due(p: Platform, roster: Roster, generation: nat, revision: nat, node: string, record: Record) {
    && record.origin.Publication? && record.origin.roster == roster && Lists(roster.nodes, record.origin.order)
    && Built(p, PeersOf(roster.nodes, record.origin.order), generation, revision, node, record.snapshot,
             record.origin.items)
  }

  lemma DueStamp(p: Platform, roster: Roster, generation: nat, revision: nat, node: string, record: Record)
    requires Due(p, roster, generation, revision, node, record)
    ensures var s := record.snapshot; s.generation == generation && s.revision == revision && s.leader == node
  {
  }

  // The world with one more write in flight and the node waiting for it.
  ghost function Waiting(w: World, node: string, record: Record): World
    requires node in w.members
  {
    w.(writes := w.writes + {Write(Durable(w), record)},
       members := w.members[node := w.members[node].(op := Writing(record))])
  }

  lemma PublishStarts(p: Platform, w: World, node: string, record: Record)
    requires Leading(w, node)
    requires Due(p, w.members[node].roster, Durable(w).value.generation, Durable(w).value.revision + 1, node, record)
    ensures var e := At(node, StartPublish(record.origin.order, record.snapshot, record.origin.items));
            && Enabled(p, w, e)
            && CoordinationRuns.Step(p, w, e)
               == w.(members := w.members[node := w.members[node].(op := Building(record))])
  {
    var m, o := w.members[node], record.origin;
    var action := StartPublish(o.order, record.snapshot, o.items);
    assert NextRevision(m.view) == Durable(w).value.revision + 1;
    assert Allowed(p, w, node, m, action);
    assert Act(p, w, node, m, action) == m.(op := Building(record));
  }

  lemma FencesPass(p: Platform, w: World, node: string, record: Record)
    requires node in w.members && w.members[node].op == Building(record) && Durable(w).Some?
    requires var d, s := Durable(w).value, record.snapshot;
             d.leader == node && s.generation == d.generation && s.revision == d.revision + 1
    ensures Enabled(p, w, At(node, PassFences))
    ensures CoordinationRuns.Step(p, w, At(node, PassFences)) == Waiting(w, node, record)
  {
  }

  // Up to the conditional write.
  lemma WriteIssued(p: Platform, w: World, node: string, record: Record)
    returns (events: seq<CoordinationRuns.Event>)
    requires Leading(w, node)
    requires Due(p, w.members[node].roster, Durable(w).value.generation, Durable(w).value.revision + 1, node, record)
    ensures Reaches(p, w, events, Waiting(w, node, record))
  {
    var start := At(node, StartPublish(record.origin.order, record.snapshot, record.origin.items));
    PublishStarts(p, w, node, record);
    ReachesOne(p, w, start);
    DueStamp(p, w.members[node].roster, Durable(w).value.generation, Durable(w).value.revision + 1, node, record);
    FencesAfter(p, w, [start], node, record);
    events := [start] + [At(node, PassFences)];
  }

  lemma FencesAfter(p: Platform, w: World, events: seq<CoordinationRuns.Event>, node: string, record: Record)
    requires node in w.members && Durable(w).Some?
    requires var d, s := Durable(w).value, record.snapshot;
             d.leader == node && s.generation == d.generation && s.revision == d.revision + 1
    requires Reaches(p, w, events, w.(members := w.members[node := w.members[node].(op := Building(record))]))
    ensures Reaches(p, w, events + [At(node, PassFences)], Waiting(w, node, record))
  {
    var u := w.(members := w.members[node := w.members[node].(op := Building(record))]);
    FencesPass(p, u, node, record);
    ReachesNext(p, w, events, u, At(node, PassFences));
    assert Waiting(u, node, record).members == Waiting(w, node, record).members;
  }

  // The world after the write has landed and the node has applied and broadcast it.
  ghost function Taken(w: World, node: string, record: Record, a: Application): World
    requires node in w.members
  {
    var m, s := w.members[node], record.snapshot;
    World(w.log + [record], w.writes, w.sent + {s}, w.broadcast + {s},
          w.members[node := m.(op := Idle, view := Accepted(m.view, s, a.chosen, a.now))])
  }

  lemma TakenLeads(p: Platform, w: World, node: string, record: Record, a: Application)
    requires Leading(w, node)
    requires Due(p, w.members[node].roster, Durable(w).value.generation, Durable(w).value.revision + 1, node, record)
    ensures var v := Taken(Waiting(w, node, record), node, record, a);
            && Leading(v, node) && PublishedNext(p, w, node, v) && OthersKept(w, v, node)
            && v.members[node].roster == w.members[node].roster && v.members[node].config == w.members[node].config
            && v.members[node].view.snapshot == Some(record.snapshot)
  {
    DueStamp(p, w.members[node].roster, Durable(w).value.generation, Durable(w).value.revision + 1, node, record);
    var v := Taken(Waiting(w, node, record), node, record, a);
    assert v.log == w.log + [record] && v.log[|w.log|] == record;
    assert Durable(v) == Some(record.snapshot);
  }

  /** A node that leads can publish: the run below ends with its registry durable one revision higher, applied by the
      node and broadcast, and the node still leads. */
  lemma PublicationLands(p: Platform, w: World, node: string, local: seq<Service>, now: Time)
    returns (events: seq<CoordinationRuns.Event>, v: World)
    requires Leading(w, node) && BareContract(local)
    ensures Reaches(p, w, events, v) && Leading(v, node) && PublishedNext(p, w, node, v) && OthersKept(w, v, node)
    ensures v.members[node].roster == w.members[node].roster && v.members[node].config == w.members[node].config
    ensures v.members[node].view.snapshot == Some(v.log[|w.log|].snapshot)
  {
    var m, d := w.members[node], Durable(w).value;
    var order := ListingExists(m.roster.nodes.Keys);
    var snapshot, items := BuiltExists(p, PeersOf(m.roster.nodes, order), d.generation, d.revision + 1, node);
    var record := Record(snapshot, Publication(m.roster, order, items));
    var a := ApplicationExists(m.config.nodeGroup, snapshot.services, local, now);
    var first := WriteIssued(p, w, node, record);
    var second := WriteTaken(p, Waiting(w, node, record), node, Write(Durable(w), record), a);
    v := Taken(Waiting(w, node, record), node, record, a);
    ReachesOn(p, w, first, Waiting(w, node, record), second, v);
    events := first + second;
    TakenLeads(p, w, node, record, a);
  }

  // The write lands, is reported and applied.
  lemma WriteTaken(p: Platform, w: World, node: string, write: Write, a: Application)
    returns (events: seq<CoordinationRuns.Event>)
    requires node in w.members && w.members[node].op == Writing(write.record)
    requires write in w.writes && Durable(w) == write.expected && a.succeeds
    requires Proper(w.members[node].config.nodeGroup, write.record.snapshot.services, a)
    requires Advances(w.members[node].view, write.record.snapshot)
    ensures Reaches(p, w, events, Taken(w, node, write.record, a))
  {
    var m, s := w.members[node], write.record.snapshot;
    ReachesOne(p, w, Land(write));
    var landed := w.(log := w.log + [write.record]);
    assert write.record in landed.log;
    ReachesNext(p, w, [Land(write)], landed, At(node, PublishStored));
    var stored := landed.(members := w.members[node := m.(op := Op.Published(s))]);
    assert CoordinationRuns.Step(p, landed, At(node, PublishStored)) == stored;
    ReachesNext(p, w, [Land(write)] + [At(node, PublishStored)], stored, At(node, PublishApplies(a)));
    events := [Land(write)] + [At(node, PublishStored)] + [At(node, PublishApplies(a))];
    assert stored.members[node := m.(op := Idle, view := Accepted(m.view, s, a.chosen, a.now))]
        == w.members[node := m.(op := Idle, view := Accepted(m.view, s, a.chosen, a.now))];
  }

  // ---- Taking a generation ----

  // What an acquisition adds: the next generation at revision zero under this node's name, without backends.
  ghost predicate AcquiredNext(w: World, node: string, v: World) {
    && |v.log| == |w.log| + 1 && w.log <= v.log
    && var s := v.log[|w.log|].snapshot;
       && s.generation == (if Durable(w).None? then 1 else Durable(w).value.generation + 1)
       && s.revision == 0 && s.leader == node && AllBackends(s.services) == multiset{}
  }

  lemma CandidateIsNewer(p: Platform, w: World, node: string, candidate: Snapshot)
    requires Invariant(p, w) && node in w.members && Legal(Durable(w), candidate) && candidate.revision == 0
    ensures Advances(w.members[node].view, candidate)
  {
    var view := w.members[node].view;
    if view.snapshot.Some? {
      assert MemberOk(p, w.log, node, w.members[node]);
      var i: nat :| GroundedBy(w.log, view.snapshot.value, i);
      if i < |w.log| - 1 {
        ChainRises(w.log, i, |w.log| - 1);
      }
    }
  }

  lemma AcquireWritten(p: Platform, w: World, node: string, local: seq<Service>, record: Record)
    returns (events: seq<CoordinationRuns.Event>, v: World)
    requires node in w.members && w.members[node].op == Idle && BareContract(local)
    requires record == Record(AcquireCandidate(node, w.members[node].config.nodeGroup, Durable(w), local), Acquisition)
    ensures Reaches(p, w, events, v)
    ensures v == w.(log := w.log + [record], writes := w.writes + {Write(Durable(w), record)},
                    members := w.members[node := w.members[node].(op := Acquiring(record))])
  {
    var start := At(node, StartAcquire(local));
    ReachesOne(p, w, start);
    var u := w.(writes := w.writes + {Write(Durable(w), record)},
                members := w.members[node := w.members[node].(op := Acquiring(record))]);
    assert CoordinationRuns.Step(p, w, start) == u;
    var land := Land(Write(Durable(w), record));
    ReachesNext(p, w, [start], u, land);
    events, v := [start] + [land], CoordinationRuns.Step(p, u, land);
  }

  lemma AcquireTaken(p: Platform, w: World, node: string, record: Record, a: Application)
    returns (events: seq<CoordinationRuns.Event>, v: World)
    requires node in w.members && w.members[node].op == Acquiring(record) && record in w.log && a.succeeds
    requires Proper(w.members[node].config.nodeGroup, record.snapshot.services, a)
    requires Advances(w.members[node].view, record.snapshot)
    ensures Reaches(p, w, events, v)
    ensures var m, s := w.members[node], record.snapshot;
            v == w.(members := w.members[node :=
                      Member(m.config, Roster(map[], map[]),
                             Accepted(m.view.(generation := s.generation), s, a.chosen, a.now).(ready := true), Idle)])
  {
    var m, s := w.members[node], record.snapshot;
    var stored := At(node, AcquireStored);
    ReachesOne(p, w, stored);
    var taking := Member(m.config, Roster(map[], map[]), m.view.(generation := s.generation), Taking(s));
    var u := w.(members := w.members[node := taking]);
    assert CoordinationRuns.Step(p, w, stored) == u;
    ReachesNext(p, w, [stored], u, At(node, AcquireApplies(a)));
    events, v := [stored] + [At(node, AcquireApplies(a))], CoordinationRuns.Step(p, u, At(node, AcquireApplies(a)));
    assert u.members[node := v.members[node]] == w.members[node := v.members[node]];
  }

  /** From every reachable state an idle node can take the next generation, and then leads with an empty registry. */
  lemma AcquisitionLands(p: Platform, w: World, node: string, local: seq<Service>, now: Time)
    returns (events: seq<CoordinationRuns.Event>, v: World)
    requires Invariant(p, w) && node in w.members && w.members[node].op == Idle && BareContract(local)
    ensures Reaches(p, w, events, v) && Leading(v, node) && AcquiredNext(w, node, v) && OthersKept(w, v, node)
    ensures v.members[node].roster == Roster(map[], map[]) && v.members[node].config == w.members[node].config
    ensures v.members[node].view.ready
  {
    var m := w.members[node];
    var s := AcquireCandidate(node, m.config.nodeGroup, Durable(w), local);
    var record := Record(s, Acquisition);
    CandidateStamp(p, w, node, local, s);
    CandidateIsNewer(p, w, node, s);
    var a := ApplicationExists(m.config.nodeGroup, s.services, local, now);
    var first, u := AcquireWritten(p, w, node, local, record);
    assert u.log[|w.log|] == record;
    var second;
    second, v := AcquireTaken(p, u, node, record, a);
    ReachesOn(p, w, first, u, second, v);
    events := first + second;
  }

  lemma CandidateStamp(p: Platform, w: World, node: string, local: seq<Service>, s: Snapshot)
    requires node in w.members && BareContract(local)
    requires s == AcquireCandidate(node, w.members[node].config.nodeGroup, Durable(w), local)
    ensures s.generation == (if Durable(w).None? then 1 else Durable(w).value.generation + 1)
    ensures s.revision == 0 && s.leader == node && Legal(Durable(w), s) && AllBackends(s.services) == multiset{}
  {
    CandidateJustified(p, node, w.members[node].config.nodeGroup, Durable(w), local);
  }

  // ---- Rounds of registry changes and publications ----

  // Messages and expiries that reach the leader.
  predicate Messages(events: seq<Registry.Event>) {
    forall i :: 0 <= i < |events| ==> !events[i].Acquired?
  }

  function RosterAfter(p: Platform, config: Config, r: Roster, rounds: seq<seq<Registry.Event>>): Roster {
    if rounds == [] then r
    else Registry.After(p, config, RosterAfter(p, config, r, rounds[..|rounds| - 1]), rounds[|rounds| - 1])
  }

  // The leader takes the messages in.
  lemma {:induction false} MessagesTaken(p: Platform, w: World, node: string, messages: seq<Registry.Event>)
    returns (events: seq<CoordinationRuns.Event>, v: World)
    requires Leading(w, node) && Messages(messages)
    ensures Reaches(p, w, events, v) && Leading(v, node) && OthersKept(w, v, node)
    ensures v == w.(members := v.members)
    ensures var m := w.members[node];
            v.members[node] == m.(roster := Registry.After(p, m.config, m.roster, messages))
    decreases |messages|
  {
    if messages == [] {
      events, v := [], w;
    } else {
      var e, m := At(node, Registers(messages[0])), w.members[node];
      ReachesOne(p, w, e);
      var u := CoordinationRuns.Step(p, w, e);
      assert u == w.(members := w.members[node := m.(roster := Registry.Step(p, m.config, m.roster, messages[0]))]);
      var rest;
      rest, v := MessagesTaken(p, u, node, messages[1..]);
      ReachesOn(p, w, [e], u, rest, v);
      events := [e] + rest;
    }
  }

  // The k-th record publishes the registry after k + 1 rounds, k + 1 revisions higher.
  ghost predicate LoggedAt(p: Platform, record: Record, config: Config, roster: Roster, generation: nat, revision: nat,
                           node: string, rounds: seq<seq<Registry.Event>>, k: nat)
    requires k < |rounds|
  {
    Due(p, RosterAfter(p, config, roster, rounds[..k + 1]), generation, revision + k + 1, node, record)
  }

  ghost predicate RoundsLogged(p: Platform, log: seq<Record>, config: Config, roster: Roster, generation: nat,
                               revision: nat, node: string, rounds: seq<seq<Registry.Event>>) {
    && |log| == |rounds|
    && forall k: nat :: k < |log| ==> LoggedAt(p, log[k], config, roster, generation, revision, node, rounds, k)
  }

  lemma EarlierLogged(p: Platform, record: Record, config: Config, roster: Roster, generation: nat, revision: nat,
                      node: string, front: seq<seq<Registry.Event>>, last: seq<Registry.Event>, k: nat)
    requires k < |front| && LoggedAt(p, record, config, roster, generation, revision, node, front, k)
    ensures LoggedAt(p, record, config, roster, generation, revision, node, front + [last], k)
  {
    assert (front + [last])[..k + 1] == front[..k + 1];
  }

  lemma {:induction false} RoundsMore(p: Platform, log: seq<Record>, record: Record, config: Config, roster: Roster,
                                      generation: nat, revision: nat, node: string,
                                      front: seq<seq<Registry.Event>>, last: seq<Registry.Event>)
    requires RoundsLogged(p, log, config, roster, generation, revision, node, front)
    requires Due(p, RosterAfter(p, config, roster, front + [last]), generation, revision + |front| + 1, node, record)
    ensures RoundsLogged(p, log + [record], config, roster, generation, revision, node, front + [last])
  {
    var all := front + [last];
    assert LoggedAt(p, record, config, roster, generation, revision, node, all, |front|) by {
      assert all[..|front| + 1] == all;
    }
    forall k: nat | k < |front|
      ensures LoggedAt(p, (log + [record])[k], config, roster, generation, revision, node, all, k)
    {
      EarlierLogged(p, log[k], config, roster, generation, revision, node, front, last, k);
    }
  }

  // The leader went from w to v by one publication of its registry with some more messages.
  ghost predicate OneRound(p: Platform, w: World, v: World, node: string, messages: seq<Registry.Event>) {
    && Leading(w, node) && Leading(v, node) && |v.log| == |w.log| + 1 && w.log <= v.log
    && var m, d := w.members[node], Durable(w).value;
       var roster := Registry.After(p, m.config, m.roster, messages);
       && v.members[node].config == m.config && v.members[node].roster == roster
       && Durable(v).value.generation == d.generation && Durable(v).value.revision == d.revision + 1
       && Due(p, roster, d.generation, d.revision + 1, node, v.log[|w.log|])
  }

  // The same for rounds of messages, each followed by a publication.
  ghost predicate AllRounds(p: Platform, w: World, v: World, node: string, rounds: seq<seq<Registry.Event>>) {
    && Leading(w, node) && Leading(v, node) && w.log <= v.log
    && var m, d := w.members[node], Durable(w).value;
       && v.members[node].config == m.config
       && v.members[node].roster == RosterAfter(p, m.config, m.roster, rounds)
       && Durable(v).value.generation == d.generation && Durable(v).value.revision == d.revision + |rounds|
       && RoundsLogged(p, v.log[|w.log|..], m.config, m.roster, d.generation, d.revision, node, rounds)
  }

  lemma SuffixGrows(a: seq<Record>, b: seq<Record>, c: seq<Record>)
    requires a <= b && b <= c && |c| == |b| + 1
    ensures c[|a|..] == b[|a|..] + [c[|b|]] && a <= c
  {
  }

  lemma {:induction false} RosterMore(p: Platform, config: Config, r: Roster, front: seq<seq<Registry.Event>>,
                                      last: seq<Registry.Event>)
    ensures RosterAfter(p, config, r, front + [last])
         == Registry.After(p, config, RosterAfter(p, config, r, front), last)
  {
    assert (front + [last])[..|front|] == front;
  }

  lemma OneMoreRound(p: Platform, w: World, u: World, v: World, node: string, front: seq<seq<Registry.Event>>,
                     last: seq<Registry.Event>)
    requires AllRounds(p, w, u, node, front) && OneRound(p, u, v, node, last)
    ensures AllRounds(p, w, v, node, front + [last])
  {
    var m, d := w.members[node], Durable(w).value;
    SuffixGrows(w.log, u.log, v.log);
    RosterMore(p, m.config, m.roster, front, last);
    RoundsMore(p, u.log[|w.log|..], v.log[|u.log|], m.config, m.roster, d.generation, d.revision, node, front, last);
  }

  // One round: the messages, then a publication.
  lemma OneRoundLands(p: Platform, w: World, node: string, local: seq<Service>, now: Time,
                      messages: seq<Registry.Event>)
    returns (events: seq<CoordinationRuns.Event>, v: World)
    requires Leading(w, node) && BareContract(local) && Messages(messages)
    ensures Reaches(p, w, events, v) && OneRound(p, w, v, node, messages)
  {
    var taking, x := MessagesTaken(p, w, node, messages);
    var publishing;
    publishing, v := PublicationLands(p, x, node, local, now);
    ReachesOn(p, w, taking, x, publishing, v);
    events := taking + publishing;
    DueStamp(p, x.members[node].roster, Durable(x).value.generation, Durable(x).value.revision + 1, node,
             v.log[|x.log|]);
  }

  lemma NoRounds(p: Platform, w: World, node: string)
    requires Leading(w, node)
    ensures AllRounds(p, w, w, node, []) && Reaches(p, w, [], w)
  {
  }

  /** A leader can go on: for any rounds of messages there is a run in which after each round its registry is published,
      and every publication lands, one revision above the one before, built from exactly the messages so far. */
  lemma {:induction false} EveryRoundLands(p: Platform, w: World, node: string, local: seq<Service>, now: Time,
                                           rounds: seq<seq<Registry.Event>>)
    returns (events: seq<CoordinationRuns.Event>, v: World)
    requires Leading(w, node) && BareContract(local) && forall i :: 0 <= i < |rounds| ==> Messages(rounds[i])
    ensures Reaches(p, w, events, v) && AllRounds(p, w, v, node, rounds)
    decreases |rounds|
  {
    if rounds == [] {
      events, v := [], w;
      NoRounds(p, w, node);
    } else {
      var n := |rounds| - 1;
      var front, last := rounds[..n], rounds[n];
      assert rounds == front + [last];
      var before, u := EveryRoundLands(p, w, node, local, now, front);
      var after;
      after, v := OneRoundLands(p, u, node, local, now, last);
      OneMoreRound(p, w, u, v, node, front, last);
      ReachesOn(p, w, before, u, after, v);
      events := before + after;
    }
  }

  /** From every reachable state an idle node can take a generation and publish any number of times: the acquisition
      lands at revision zero, and the k-th publication at revision k, built from the messages of the first k rounds. */
  lemma LeaderPublishesEveryRound(p: Platform, w: World, node: string, local: seq<Service>, now: Time,
                                  rounds: seq<seq<Registry.Event>>)
    returns (events: seq<CoordinationRuns.Event>, v: World)
    requires Invariant(p, w) && node in w.members && w.members[node].op == Idle && BareContract(local)
    requires forall i :: 0 <= i < |rounds| ==> Messages(rounds[i])
    ensures Reaches(p, w, events, v) && |v.log| == |w.log| + 1 + |rounds| && w.log <= v.log
    ensures var generation := if Durable(w).None? then 1 else Durable(w).value.generation + 1;
            var acquired := v.log[|w.log|].snapshot;
            && acquired.generation == generation && acquired.revision == 0 && acquired.leader == node
            && RoundsLogged(p, v.log[|w.log| + 1..], w.members[node].config, Roster(map[], map[]), generation, 0, node,
                            rounds)
  {
    var first, u := AcquisitionLands(p, w, node, local, now);
    var second;
    second, v := EveryRoundLands(p, u, node, local, now, rounds);
    ReachesOn(p, w, first, u, second, v);
    events := first + second;
  }
}
