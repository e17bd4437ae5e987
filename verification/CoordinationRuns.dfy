// Runs of many coordinators over one compare-and-swap object. Any number of nodes may believe they lead; a write
// may land at any later moment while the object still equals what was read, whatever its writer was told.
module CoordinationRuns {
  import opened Net
  import opened Sorting
  import opened Wire
  import opened Merge
  import opened MergeProperties
  import opened NodeApply
  import opened Registry
  import opened Coordination

  // Why a record was written: a new generation, or a publication of a listed registry.
  datatype Origin = Acquisition | Publication(roster: Roster, order: seq<string>, items: seq<Service>)
  datatype Record = Record(snapshot: Snapshot, origin: Origin)

  // A write in flight.
  datatype Write = Write(expected: Option<Snapshot>, record: Record)

  // Where a node is inside acquire or publish, which exclude each other.
  datatype Op =
    | Idle
    | Acquiring(record: Record)
    | Taking(candidate: Snapshot)
    | Building(record: Record)
    | Writing(record: Record)
    | Published(snapshot: Snapshot)

  datatype Member = Member(config: Config, roster: Roster, view: View, op: Op)

  // `log` is everything the object ever held, `sent` everything a stream may deliver.
  datatype World = World(log: seq<Record>, writes: set<Write>, sent: set<Snapshot>, broadcast: set<Snapshot>,
                         members: map<string, Member>)

  // One attempt to apply: the contract of the moment, what was chosen, and whether DNS and dataplane took it.
  datatype Application = Application(local: seq<Service>, chosen: seq<Service>, succeeds: bool, now: Time)

  datatype Action =
    | StartAcquire(local: seq<Service>)
    | AcquireStored
    | AcquireApplies(a: Application)
    | StartPublish(order: seq<string>, snapshot: Snapshot, items: seq<Service>)
    | PassFences
    | PublishStored
    | PublishApplies(a: Application)
    | GiveUp
    | LoseLeadership
    | Restart
    | Answer
    | Receive(message: Snapshot, a: Application)
    | Load(local: seq<Service>, loaded: Snapshot, a: Application)
    | GoStale(local: seq<Service>, a: Application)
    | LocalChange(local: seq<Service>, a: Application)
    | Registers(event: Registry.Event)

  // A write takes effect, or one node does something.
  datatype Event = Land(write: Write) | At(node: string, action: Action)

  function Durable(w: World): Option<Snapshot> {
    if w.log == [] then None else Some(w.log[|w.log| - 1].snapshot)
  }

  function Fresh(config: Config): Member {
    Member(config, Roster(map[], map[]), View(None, 0, false, 0, false, []), Idle)
  }

  // ---- Steps ----

  // A contract never carries backends.
  predicate BareContract(local: seq<Service>) {
    forall i :: 0 <= i < |local| ==> local[i].backends == []
  }

  ghost predicate Proper(nodeGroup: string, services: seq<Service>, a: Application) {
    BareContract(a.local) && Chosen(a.local, nodeGroup, services, a.chosen)
  }

  function ApplyView(v: View, s: Snapshot, a: Application): View {
    if Advances(v, s) && a.succeeds then Accepted(v, s, a.chosen, a.now) else v
  }

  // What a restarting node makes of the durable record: no backends, its own NodeGroup replaced by its contract,
  // sorted.
  ghost predicate Loaded(nodeGroup: string, durable: Snapshot, local: seq<Service>, loaded: Snapshot) {
    && loaded == durable.(services := loaded.services) && Sorted(loaded.services, ServiceLess)
    && multiset(loaded.services) == multiset(Remote(Stripped(durable.services), nodeGroup, []) + local)
  }

  ghost predicate Allowed(p: Platform, w: World, node: string, m: Member, action: Action) {
    match action
    case StartAcquire(local) => m.op == Idle && BareContract(local)
    case AcquireStored => m.op.Acquiring? && m.op.record in w.log
    case AcquireApplies(a) => m.op.Taking? && Proper(m.config.nodeGroup, m.op.candidate.services, a)
    case StartPublish(order, snapshot, items) =>
      && m.op == Idle && Lists(m.roster.nodes, order)
      && Built(p, PeersOf(m.roster.nodes, order), m.view.generation, NextRevision(m.view), node, snapshot, items)
    case PassFences => m.op.Building? && Durable(w).Some? && Fenced(node, Durable(w).value, m.op.record.snapshot)
    case PublishStored => m.op.Writing? && m.op.record in w.log
    case PublishApplies(a) => m.op.Published? && Proper(m.config.nodeGroup, m.op.snapshot.services, a)
    case GiveUp => true
    case LoseLeadership => true
    case Restart => true
    case Answer => m.view.snapshot.Some?
    case Receive(message, a) => message in w.sent && Proper(m.config.nodeGroup, message.services, a)
    case Load(local, loaded, a) =>
      && Durable(w).Some? && BareContract(local) && Loaded(m.config.nodeGroup, Durable(w).value, local, loaded)
      && Proper(m.config.nodeGroup, loaded.services, a)
    case GoStale(local, a) =>
      && StaleNow(m.view, a.now) && BareContract(local)
      && Proper(m.config.nodeGroup, Overlay(Stripped(m.view.snapshot.value.services), m.config.nodeGroup, local), a)
    case LocalChange(local, a) =>
      BareContract(local) && Proper(m.config.nodeGroup, Overlay(Carried(m.view), m.config.nodeGroup, local), a)
    case Registers(event) => !event.Acquired?
  }

  ghost predicate Enabled(p: Platform, w: World, e: Event) {
    match e
    case Land(write) => write in w.writes && Durable(w) == write.expected
    case At(node, action) => node in w.members && Allowed(p, w, node, w.members[node], action)
  }

  ghost function Act(p: Platform, w: World, node: string, m: Member, action: Action): Member
    requires Allowed(p, w, node, m, action)
  {
    match action
    case StartAcquire(local) =>
      m.(op := Acquiring(Record(AcquireCandidate(node, m.config.nodeGroup, Durable(w), local), Acquisition)))
    case AcquireStored =>
      Member(m.config, Roster(map[], map[]), m.view.(generation := m.op.record.snapshot.generation),
             Taking(m.op.record.snapshot))
    case AcquireApplies(a) =>
      var v := ApplyView(m.view, m.op.candidate, a);
      m.(view := v.(ready := v.ready || a.succeeds || !Advances(m.view, m.op.candidate)), op := Idle)
    case StartPublish(order, snapshot, items) =>
      m.(op := Building(Record(snapshot, Publication(m.roster, order, items))))
    case PassFences => m.(op := Writing(m.op.record))
    case PublishStored => m.(op := Published(m.op.record.snapshot))
    case PublishApplies(a) => m.(view := ApplyView(m.view, m.op.snapshot, a), op := Idle)
    case GiveUp => m.(op := Idle)
    case LoseLeadership => m.(view := m.view.(ready := false))
    case Restart => Fresh(m.config)
    case Answer => m
    case Receive(message, a) => m.(view := ApplyView(m.view, message, a))
    case Load(_, loaded, a) => m.(view := ApplyView(m.view, loaded, a))
    case GoStale(_, a) => if a.succeeds then m.(view := m.view.(stale := true, applied := a.chosen)) else m
    case LocalChange(_, a) => if a.succeeds then m.(view := m.view.(applied := a.chosen)) else m
    case Registers(event) => m.(roster := Registry.Step(p, m.config, m.roster, event))
  }

  // The write an action puts in flight.
  ghost function Issued(w: World, node: string, m: Member, action: Action): set<Write>
    requires action.PassFences? ==> m.op.Building?
  {
    match action
    case StartAcquire(local) =>
      {Write(Durable(w), Record(AcquireCandidate(node, m.config.nodeGroup, Durable(w), local), Acquisition))}
    case PassFences => {Write(Durable(w), m.op.record)}
    case _ => {}
  }

  // The snapshot an action broadcasts: only after its application, or when a newer one is already applied.
  ghost function Broadcasts(m: Member, action: Action): set<Snapshot>
    requires action.PublishApplies? ==> m.op.Published?
  {
    if action.PublishApplies? && (action.a.succeeds || !Advances(m.view, m.op.snapshot)) then {m.op.snapshot} else {}
  }

  // What streams may deliver from now on: broadcasts, and the accepted snapshot given to a subscriber.
  ghost function Sends(m: Member, action: Action): set<Snapshot>
    requires action.PublishApplies? ==> m.op.Published?
  {
    Broadcasts(m, action) + if action.Answer? && m.view.snapshot.Some? then {m.view.snapshot.value} else {}
  }

  ghost function Step(p: Platform, w: World, e: Event): World
    requires Enabled(p, w, e)
  {
    match e
    case Land(write) => w.(log := w.log + [write.record])
    case At(node, action) =>
      var m := w.members[node];
      World(w.log, w.writes + Issued(w, node, m, action), w.sent + Sends(m, action),
            w.broadcast + Broadcasts(m, action),
            w.members[node := Act(p, w, node, m, action)])
  }

  // Fresh nodes over an absent object.
  predicate Start(w: World) {
    && w.log == [] && w.writes == {} && w.sent == {} && w.broadcast == {}
    && forall n :: n in w.members ==> w.members[n] == Fresh(w.members[n].config)
  }

  ghost predicate Run(p: Platform, w: World, events: seq<Event>)
    decreases |events|
  {
    events == [] || (Enabled(p, w, events[0]) && Run(p, Step(p, w, events[0]), events[1..]))
  }

  ghost function After(p: Platform, w: World, events: seq<Event>): World
    requires Run(p, w, events)
    decreases |events|
  {
    if events == [] then w else After(p, Step(p, w, events[0]), events[1..])
  }

  // ---- The log is a chain ----

  // What the code's own checks allow on top of a given object.
  predicate Legal(expected: Option<Snapshot>, body: Snapshot) {
    match expected
    case None => body.generation == 1 && body.revision == 0
    case Some(d) =>
      || (body.generation == d.generation + 1 && body.revision == 0)
      || (body.generation == d.generation && body.revision == d.revision + 1 && body.leader == d.leader)
  }

  predicate Chain(log: seq<Record>) {
    && (log != [] ==> Legal(None, log[0].snapshot))
    && forall i :: 0 < i < |log| ==> Legal(Some(log[i - 1].snapshot), log[i].snapshot)
  }

  lemma {:induction false} ChainRises(log: seq<Record>, i: nat, j: nat)
    requires Chain(log) && i < j < |log|
    ensures Newer(log[j].snapshot, log[i].snapshot)
    ensures log[i].snapshot.generation == log[j].snapshot.generation ==>
              log[i].snapshot.leader == log[j].snapshot.leader
    decreases j
  {
    assert Legal(Some(log[j - 1].snapshot), log[j].snapshot);
    if i < j - 1 {
      ChainRises(log, i, j - 1);
    }
  }

  // ---- Backends only shrink on the way ----

  lemma {:induction false} BareBackends(services: seq<Service>)
    requires forall i :: 0 <= i < |services| ==> services[i].backends == []
    ensures AllBackends(services) == multiset{}
  {
    if services != [] {
      BareBackends(services[1..]);
    }
  }

  lemma {:induction false} RemoteBackends(services: seq<Service>, nodeGroup: string, local: seq<Service>)
    ensures AllBackends(Remote(services, nodeGroup, local)) <= AllBackends(services)
  {
    if services != [] {
      var front, last := services[..|services| - 1], services[|services| - 1];
      assert services == front + [last];
      RemoteBackends(front, nodeGroup, local);
      SumAppend(front, last, BackendsOf);
      SumAppend(Remote(front, nodeGroup, local), last, BackendsOf);
    }
  }

  lemma OverlayBackends(services: seq<Service>, nodeGroup: string, local: seq<Service>)
    requires BareContract(local)
    ensures AllBackends(Overlay(services, nodeGroup, local)) <= AllBackends(services)
  {
    var remote := Remote(services, nodeGroup, local);
    RemoteBackends(services, nodeGroup, local);
    BareBackends(local);
    SumConcat(remote, local, BackendsOf);
    SumPermuted(Sort(remote + local, ServiceLess), remote + local, BackendsOf);
  }

  lemma LoadedBackends(nodeGroup: string, durable: Snapshot, local: seq<Service>, loaded: Snapshot)
    requires BareContract(local) && Loaded(nodeGroup, durable, local, loaded)
    ensures AllBackends(loaded.services) == multiset{}
  {
    var remote := Remote(Stripped(durable.services), nodeGroup, []);
    BareBackends(Stripped(durable.services));
    RemoteBackends(Stripped(durable.services), nodeGroup, []);
    BareBackends(local);
    SumConcat(remote, local, BackendsOf);
    SumPermuted(loaded.services, remote + local, BackendsOf);
  }

  /** A node that loads a durable record with backends holds another snapshot under the same stamp. */
  lemma LoadedDiffers(nodeGroup: string, durable: Snapshot, local: seq<Service>, loaded: Snapshot)
    requires BareContract(local) && Loaded(nodeGroup, durable, local, loaded)
             && AllBackends(durable.services) != multiset{}
    ensures SameStamp(loaded, durable) && loaded != durable && !Newer(loaded, durable) && !Newer(durable, loaded)
  {
    LoadedBackends(nodeGroup, durable, local, loaded);
  }

  lemma {:induction false} SelectLast(services: seq<Service>, nodeGroup: string, wanted: map<string, Service>)
    requires services != []
    ensures var kept := Select(services[..|services| - 1], nodeGroup, wanted).kept;
            var last := services[|services| - 1];
            Select(services, nodeGroup, wanted).kept == kept
              || Select(services, nodeGroup, wanted).kept == kept + [last]
  {
  }

  lemma {:induction false} SelectBackends(services: seq<Service>, nodeGroup: string, wanted: map<string, Service>)
    ensures AllBackends(Select(services, nodeGroup, wanted).kept) <= AllBackends(services)
  {
    if services != [] {
      var front, last := services[..|services| - 1], services[|services| - 1];
      assert services == front + [last];
      SelectLast(services, nodeGroup, wanted);
      SelectBackends(front, nodeGroup, wanted);
      SumAppend(front, last, BackendsOf);
      SumAppend(Select(front, nodeGroup, wanted).kept, last, BackendsOf);
    }
  }

  lemma {:induction false} LeftoverBare(local: seq<Service>, rest: map<string, Service>)
    requires BareContract(local)
    ensures BareContract(Leftover(local, rest))
  {
    if local != [] {
      LeftoverBare(local[..|local| - 1], rest);
    }
  }

  // What a node applies never has a backend the snapshot did not have.
  lemma ChosenBackends(nodeGroup: string, services: seq<Service>, a: Application)
    requires Proper(nodeGroup, services, a)
    ensures AllBackends(a.chosen) <= AllBackends(services)
  {
    var s := Select(services, nodeGroup, Wanted(a.local));
    var extra := Leftover(a.local, s.rest);
    SelectBackends(services, nodeGroup, Wanted(a.local));
    LeftoverBare(a.local, s.rest);
    BareBackends(extra);
    SumConcat(s.kept, extra, BackendsOf);
    SumPermuted(a.chosen, s.kept + extra, BackendsOf);
  }

  // ---- The invariant ----

  predicate SameStamp(a: Snapshot, b: Snapshot) {
    a.generation == b.generation && a.revision == b.revision && a.leader == b.leader
  }

  ghost predicate Justified(p: Platform, r: Record) {
    match r.origin
    case Acquisition => AllBackends(r.snapshot.services) == multiset{}
    case Publication(roster, order, items) =>
      && Consistent(p, roster) && Lists(roster.nodes, order)
      && Built(p, PeersOf(roster.nodes, order), r.snapshot.generation, r.snapshot.revision, r.snapshot.leader,
               r.snapshot, items)
  }

  // A snapshot some record vouches for: that record itself, or its stamp with every backend withdrawn.
  ghost predicate GroundedBy(log: seq<Record>, s: Snapshot, i: nat) {
    i < |log| && SameStamp(s, log[i].snapshot) && (s == log[i].snapshot || AllBackends(s.services) == multiset{})
  }

  ghost predicate Grounded(log: seq<Record>, s: Snapshot) {
    exists i :: GroundedBy(log, s, i)
  }

  // What is applied: backends of the accepted snapshot only, and none at all once stale or before any snapshot.
  ghost predicate Within(v: View) {
    && (v.snapshot.None? || v.stale ==> AllBackends(v.applied) == multiset{})
    && (v.snapshot.Some? ==> AllBackends(v.applied) <= AllBackends(v.snapshot.value.services))
  }

  ghost predicate OpOk(p: Platform, log: seq<Record>, node: string, op: Op) {
    match op
    case Idle => true
    case Acquiring(record) => true
    case Taking(candidate) => InLog(log, candidate)
    case Building(record) => Justified(p, record) && record.snapshot.leader == node
    case Writing(record) => true
    case Published(snapshot) => InLog(log, snapshot)
  }

  ghost predicate InLog(log: seq<Record>, s: Snapshot) {
    exists i :: 0 <= i < |log| && log[i].snapshot == s
  }

  ghost predicate MemberOk(p: Platform, log: seq<Record>, node: string, m: Member) {
    && Consistent(p, m.roster) && Within(m.view) && OpOk(p, log, node, m.op)
    && (m.view.snapshot.Some? ==> Grounded(log, m.view.snapshot.value))
  }

  ghost predicate WriteOk(p: Platform, write: Write) {
    Legal(write.expected, write.record.snapshot) && Justified(p, write.record)
  }

  ghost predicate Invariant(p: Platform, w: World) {
    && Chain(w.log) && (forall r :: r in w.log ==> Justified(p, r))
    && (forall write :: write in w.writes ==> WriteOk(p, write))
    && (forall s :: s in w.sent ==> Grounded(w.log, s))
    && (forall s :: s in w.broadcast ==> InLog(w.log, s))
    && (forall n :: n in w.members ==> MemberOk(p, w.log, n, w.members[n]))
  }

  // ---- Landing a write ----

  lemma GroundedGrows(log: seq<Record>, r: Record, s: Snapshot)
    requires Grounded(log, s)
    ensures Grounded(log + [r], s)
  {
    var i :| GroundedBy(log, s, i);
    assert GroundedBy(log + [r], s, i);
  }

  lemma InLogGrows(log: seq<Record>, r: Record, s: Snapshot)
    requires InLog(log, s)
    ensures InLog(log + [r], s)
  {
    var i :| 0 <= i < |log| && log[i].snapshot == s;
    assert (log + [r])[i].snapshot == s;
  }

  lemma InLogGrounded(log: seq<Record>, s: Snapshot)
    requires InLog(log, s)
    ensures Grounded(log, s)
  {
    var i: nat :| i < |log| && log[i].snapshot == s;
    assert GroundedBy(log, s, i);
  }

  lemma MemberGrows(p: Platform, log: seq<Record>, r: Record, node: string, m: Member)
    requires MemberOk(p, log, node, m)
    ensures MemberOk(p, log + [r], node, m)
  {
    if m.view.snapshot.Some? {
      GroundedGrows(log, r, m.view.snapshot.value);
    }
    match m.op
    case Taking(candidate) => InLogGrows(log, r, candidate);
    case Published(snapshot) => InLogGrows(log, r, snapshot);
    case _ =>
  }

  lemma ChainGrows(log: seq<Record>, r: Record)
    requires Chain(log) && Legal(if log == [] then None else Some(log[|log| - 1].snapshot), r.snapshot)
    ensures Chain(log + [r])
  {
  }

  lemma MessagesGrow(log: seq<Record>, r: Record, sent: set<Snapshot>, broadcast: set<Snapshot>)
    requires (forall s :: s in sent ==> Grounded(log, s)) && forall s :: s in broadcast ==> InLog(log, s)
    ensures forall s :: s in sent ==> Grounded(log + [r], s)
    ensures forall s :: s in broadcast ==> InLog(log + [r], s)
  {
    forall s | s in sent ensures Grounded(log + [r], s) { GroundedGrows(log, r, s); }
    forall s | s in broadcast ensures InLog(log + [r], s) { InLogGrows(log, r, s); }
  }

  lemma MembersGrow(p: Platform, log: seq<Record>, r: Record, members: map<string, Member>)
    requires forall n :: n in members ==> MemberOk(p, log, n, members[n])
    ensures forall n :: n in members ==> MemberOk(p, log + [r], n, members[n])
  {
    forall n | n in members
      ensures MemberOk(p, log + [r], n, members[n])
    {
      MemberGrows(p, log, r, n, members[n]);
    }
  }

  lemma LandKeeps(p: Platform, w: World, write: Write)
    requires Invariant(p, w) && write in w.writes && Durable(w) == write.expected
    ensures Invariant(p, w.(log := w.log + [write.record]))
  {
    var log := w.log + [write.record];
    assert WriteOk(p, write);
    ChainGrows(w.log, write.record);
    MessagesGrow(w.log, write.record, w.sent, w.broadcast);
    MembersGrow(p, w.log, write.record, w.members);
    assert forall r :: r in log ==> r in w.log || r == write.record;
  }

  // ---- Node actions ----

  lemma CandidateJustified(p: Platform, node: string, nodeGroup: string, read: Option<Snapshot>, local: seq<Service>)
    requires BareContract(local)
    ensures WriteOk(p, Write(read, Record(AcquireCandidate(node, nodeGroup, read, local), Acquisition)))
  {
    var before := if read.None? then [] else Stripped(read.value.services);
    BareBackends(before);
    OverlayBackends(before, nodeGroup, local);
  }

  lemma ApplyKeepsWithin(nodeGroup: string, v: View, s: Snapshot, a: Application)
    requires Within(v) && Proper(nodeGroup, s.services, a)
    ensures Within(ApplyView(v, s, a))
  {
    ChosenBackends(nodeGroup, s.services, a);
  }

  lemma StaleKeepsWithin(nodeGroup: string, v: View, local: seq<Service>, a: Application)
    requires Within(v) && v.snapshot.Some? && BareContract(local)
    requires Proper(nodeGroup, Overlay(Stripped(v.snapshot.value.services), nodeGroup, local), a)
    ensures Within(v.(stale := true, applied := a.chosen))
  {
    var stripped := Stripped(v.snapshot.value.services);
    BareBackends(stripped);
    OverlayBackends(stripped, nodeGroup, local);
    ChosenBackends(nodeGroup, Overlay(stripped, nodeGroup, local), a);
  }

  lemma LocalKeepsWithin(nodeGroup: string, v: View, local: seq<Service>, a: Application)
    requires Within(v) && BareContract(local)
    requires Proper(nodeGroup, Overlay(Carried(v), nodeGroup, local), a)
    ensures Within(v.(applied := a.chosen))
  {
    OverlayBackends(Carried(v), nodeGroup, local);
    ChosenBackends(nodeGroup, Overlay(Carried(v), nodeGroup, local), a);
    if v.snapshot.None? {
      BareBackends(Carried(v));
    } else if v.stale {
      BareBackends(Stripped(v.snapshot.value.services));
    }
  }

  lemma LoadedGrounded(w: World, nodeGroup: string, local: seq<Service>, loaded: Snapshot)
    requires w.log != [] && BareContract(local) && Loaded(nodeGroup, Durable(w).value, local, loaded)
    ensures Grounded(w.log, loaded)
  {
    LoadedBackends(nodeGroup, Durable(w).value, local, loaded);
    assert GroundedBy(w.log, loaded, |w.log| - 1);
  }

  lemma ApplyKeepsMember(p: Platform, log: seq<Record>, node: string, m: Member, s: Snapshot, a: Application,
                         ready: bool, op: Op)
    requires MemberOk(p, log, node, m) && Grounded(log, s) && Proper(m.config.nodeGroup, s.services, a)
             && OpOk(p, log, node, op)
    ensures MemberOk(p, log, node, m.(view := ApplyView(m.view, s, a).(ready := ready), op := op))
  {
    ApplyKeepsWithin(m.config.nodeGroup, m.view, s, a);
  }

  lemma ActKeeps(p: Platform, w: World, node: string, m: Member, action: Action)
    requires MemberOk(p, w.log, node, m) && Allowed(p, w, node, m, action)
    requires forall s :: s in w.sent ==> Grounded(w.log, s)
    ensures MemberOk(p, w.log, node, Act(p, w, node, m, action))
  {
    match action
    case AcquireApplies(a) =>
      InLogGrounded(w.log, m.op.candidate);
      ApplyKeepsMember(p, w.log, node, m, m.op.candidate, a, Act(p, w, node, m, action).view.ready, Idle);
    case PublishApplies(a) =>
      InLogGrounded(w.log, m.op.snapshot);
      ApplyKeepsMember(p, w.log, node, m, m.op.snapshot, a, m.view.ready, Idle);
    case Receive(message, a) =>
      ApplyKeepsMember(p, w.log, node, m, message, a, m.view.ready, m.op);
    case Load(local, loaded, a) =>
      LoadedGrounded(w, m.config.nodeGroup, local, loaded);
      ApplyKeepsMember(p, w.log, node, m, loaded, a, m.view.ready, m.op);
    case GoStale(local, a) => StaleKeepsWithin(m.config.nodeGroup, m.view, local, a);
    case LocalChange(local, a) => LocalKeepsWithin(m.config.nodeGroup, m.view, local, a);
    case Registers(event) => StepConsistent(p, m.config, m.roster, event);
    case Restart => BareBackends([]);
    case _ =>
  }

  lemma IssuedLegal(p: Platform, w: World, node: string, m: Member, action: Action)
    requires MemberOk(p, w.log, node, m) && Allowed(p, w, node, m, action)
    ensures forall write :: write in Issued(w, node, m, action) ==> WriteOk(p, write)
  {
    match action
    case StartAcquire(local) => CandidateJustified(p, node, m.config.nodeGroup, Durable(w), local);
    case _ =>
  }

  lemma StepKeeps(p: Platform, w: World, e: Event)
    requires Invariant(p, w) && Enabled(p, w, e)
    ensures Invariant(p, Step(p, w, e))
  {
    match e
    case Land(write) => LandKeeps(p, w, write);
    case At(node, action) =>
      var m := w.members[node];
      IssuedLegal(p, w, node, m, action);
      ActKeeps(p, w, node, m, action);
      forall s | s in Broadcasts(m, action)
        ensures InLog(w.log, s) && Grounded(w.log, s)
      {
        InLogGrounded(w.log, s);
      }
  }

  lemma {:induction false} RunKeeps(p: Platform, w: World, events: seq<Event>)
    requires Invariant(p, w) && Run(p, w, events)
    ensures Invariant(p, After(p, w, events))
    decreases |events|
  {
    if events != [] {
      StepKeeps(p, w, events[0]);
      RunKeeps(p, Step(p, w, events[0]), events[1..]);
    }
  }

  lemma StartHolds(p: Platform, w: World)
    requires Start(w)
    ensures Invariant(p, w)
  {
    BareBackends([]);
  }

  // ---- What holds over every run ----

  /** The durable object only ever moves to a strictly newer stamp, and a generation has one leader. */
  lemma {:induction false} DurableStampsRise(p: Platform, w: World, events: seq<Event>, i: nat, j: nat)
    requires Start(w) && Run(p, w, events) && i < j < |After(p, w, events).log|
    ensures var log := After(p, w, events).log;
            && Newer(log[j].snapshot, log[i].snapshot)
            && (log[i].snapshot.generation == log[j].snapshot.generation ==>
                log[i].snapshot.leader == log[j].snapshot.leader)
  {
    StartHolds(p, w);
    RunKeeps(p, w, events);
    ChainRises(After(p, w, events).log, i, j);
  }

  /** Fencing: once a higher generation is durable, no write of a lower or equal stamp can ever take effect. */
  lemma {:induction false} SupersededWritesNeverLand(p: Platform, w: World, events: seq<Event>, write: Write, i: nat)
    requires Start(w) && Run(p, w, events) && i < |After(p, w, events).log|
    requires !Newer(write.record.snapshot, After(p, w, events).log[i].snapshot)
    ensures !Enabled(p, After(p, w, events), Land(write))
  {
    var v := After(p, w, events);
    StartHolds(p, w);
    RunKeeps(p, w, events);
    if Enabled(p, v, Land(write)) {
      LandKeeps(p, v, write);
      ChainRises(v.log + [write.record], i, |v.log|);
    }
  }

  /** Nothing is broadcast that was not durable first. */
  lemma {:induction false} BroadcastsAreDurable(p: Platform, w: World, events: seq<Event>, s: Snapshot)
    requires Start(w) && Run(p, w, events) && s in After(p, w, events).broadcast
    ensures exists i :: 0 <= i < |After(p, w, events).log| && After(p, w, events).log[i].snapshot == s
  {
    StartHolds(p, w);
    RunKeeps(p, w, events);
  }

  // `node` neither restarts nor disappears during the run.
  predicate Stays(node: string, events: seq<Event>) {
    forall k :: 0 <= k < |events| && events[k].At? && events[k].node == node ==> !events[k].action.Restart?
  }

  predicate NotOlder(a: Option<Snapshot>, b: Option<Snapshot>) {
    b.None? || (a.Some? && (a == b || Newer(a.value, b.value)))
  }

  lemma ActAccepts(p: Platform, w: World, node: string, m: Member, action: Action)
    requires Allowed(p, w, node, m, action) && !action.Restart?
    ensures NotOlder(Act(p, w, node, m, action).view.snapshot, m.view.snapshot)
    ensures m.view.stale && !Act(p, w, node, m, action).view.stale ==>
              && Act(p, w, node, m, action).view.snapshot.Some?
              && (m.view.snapshot.Some? ==> Newer(Act(p, w, node, m, action).view.snapshot.value,
                                                  m.view.snapshot.value))
  {
  }

  // Per step: the accepted snapshot stays or gets newer, and staleness only ends with a newer one.
  lemma StepAccepts(p: Platform, w: World, e: Event, node: string)
    requires Enabled(p, w, e) && node in w.members && Stays(node, [e])
    ensures node in Step(p, w, e).members
    ensures NotOlder(Step(p, w, e).members[node].view.snapshot, w.members[node].view.snapshot)
    ensures w.members[node].view.stale && !Step(p, w, e).members[node].view.stale ==>
              && Step(p, w, e).members[node].view.snapshot.Some?
              && (w.members[node].view.snapshot.Some? ==>
                    Newer(Step(p, w, e).members[node].view.snapshot.value, w.members[node].view.snapshot.value))
  {
    assert [e][0] == e;
    if e.At? && e.node == node {
      ActAccepts(p, w, node, w.members[node], e.action);
    }
  }

  /** The snapshot a running process holds is only ever replaced by a strictly newer one. */
  lemma {:induction false} AcceptedStampsRise(p: Platform, w: World, events: seq<Event>, node: string)
    requires Run(p, w, events) && node in w.members && Stays(node, events)
    ensures node in After(p, w, events).members
    ensures NotOlder(After(p, w, events).members[node].view.snapshot, w.members[node].view.snapshot)
    decreases |events|
  {
    if events != [] {
      assert Stays(node, [events[0]]) by { assert events[0] == [events[0]][0]; }
      assert Stays(node, events[1..]) by {
        assert forall k :: 0 <= k < |events| - 1 ==> events[1..][k] == events[k + 1];
      }
      StepAccepts(p, w, events[0], node);
      AcceptedStampsRise(p, Step(p, w, events[0]), events[1..], node);
    }
  }

  // Snapshots of one generation name one leader; two of one stamp that still have backends are equal.
  predicate Agree(s: Snapshot, t: Snapshot) {
    s.generation == t.generation ==>
      && s.leader == t.leader
      && (s.revision == t.revision && AllBackends(s.services) != multiset{} && AllBackends(t.services) != multiset{} ==>
          s == t)
  }

  lemma GroundedAgree(log: seq<Record>, s: Snapshot, t: Snapshot)
    requires Chain(log) && Grounded(log, s) && Grounded(log, t)
    ensures Agree(s, t)
  {
    var i: nat :| GroundedBy(log, s, i);
    var j: nat :| GroundedBy(log, t, j);
    if i < j {
      ChainRises(log, i, j);
    } else if j < i {
      ChainRises(log, j, i);
    }
  }

  /** At any moment, two nodes that accepted the same stamp, backends included, accepted the same snapshot. */
  lemma {:induction false} AcceptedAgree(p: Platform, w: World, events: seq<Event>, a: string, b: string)
    requires Start(w) && Run(p, w, events) && a in After(p, w, events).members && b in After(p, w, events).members
    ensures var s, t := After(p, w, events).members[a].view.snapshot, After(p, w, events).members[b].view.snapshot;
            s.Some? && t.Some? ==> Agree(s.value, t.value)
  {
    var v := After(p, w, events);
    StartHolds(p, w);
    RunKeeps(p, w, events);
    var s, t := v.members[a].view.snapshot, v.members[b].view.snapshot;
    if s.Some? && t.Some? {
      assert Grounded(v.log, s.value) by { assert MemberOk(p, v.log, a, v.members[a]); }
      assert Grounded(v.log, t.value) by { assert MemberOk(p, v.log, b, v.members[b]); }
      GroundedAgree(v.log, s.value, t.value);
    }
  }

  // A backend the leader of a record leased: announced by a registered node, inside that node's delegated prefix.
  ghost predicate Leased(p: Platform, r: Record, e: Endpoint) {
    && r.origin.Publication? && Consistent(p, r.origin.roster)
    && exists id :: id in r.origin.roster.nodes && Announces(p, r.origin.roster.nodes[id], e)
  }

  predicate Announces(p: Platform, node: Node, e: Endpoint) {
    && node.state.Some? && e in node.state.value.endpoints
    && p.address(e.address).Some? && Contains(node.prefix, p.address(e.address).value)
  }

  lemma RecordBackendsLeased(p: Platform, r: Record, e: Endpoint)
    requires Justified(p, r) && e in AllBackends(r.snapshot.services)
    ensures Leased(p, r, e)
  {
    var s := r.snapshot;
    SumMember(s.services, BackendsOf, e);
    var item :| item in s.services && e in BackendsOf(item);
    BackendsInsidePrefixes(p, r.origin.roster, r.origin.order, s.generation, s.revision, s.leader, s, r.origin.items,
                           item, e);
    var nodes := r.origin.roster.nodes;
    var id :|
      && id in nodes && nodes[id].state.Some? && e in nodes[id].state.value.endpoints
      && p.address(e.address).Some? && Contains(nodes[id].prefix, p.address(e.address).value);
    assert Announces(p, nodes[id], e);
  }

  /** Every backend any node applies was leased by the leader that durably published the very stamp the node
      accepted. */
  lemma {:induction false} AppliedBackendsAreLeased(p: Platform, w: World, events: seq<Event>, node: string,
                                                    e: Endpoint)
    requires Start(w) && Run(p, w, events) && node in After(p, w, events).members
    requires e in AllBackends(After(p, w, events).members[node].view.applied)
    ensures var v := After(p, w, events);
            && v.members[node].view.snapshot.Some? && !v.members[node].view.stale
            && exists i :: 0 <= i < |v.log| && v.log[i].snapshot == v.members[node].view.snapshot.value
                           && Leased(p, v.log[i], e)
  {
    var v := After(p, w, events);
    StartHolds(p, w);
    RunKeeps(p, w, events);
    assert MemberOk(p, v.log, node, v.members[node]);
    var s := v.members[node].view.snapshot.value;
    var i: nat :| GroundedBy(v.log, s, i);
    RecordBackendsLeased(p, v.log[i], e);
  }

  /** Withdrawn backends stay withdrawn, across local changes, until a strictly newer snapshot is accepted. */
  lemma {:induction false} StaleStaysWithdrawn(p: Platform, w: World, events: seq<Event>, node: string)
    requires Invariant(p, w) && Run(p, w, events) && node in w.members && w.members[node].view.stale
    requires Stays(node, events)
    ensures node in After(p, w, events).members
    ensures var before, now := w.members[node].view, After(p, w, events).members[node].view;
            || (now.stale && now.snapshot == before.snapshot && AllBackends(now.applied) == multiset{})
            || (now.snapshot.Some? && (before.snapshot.Some? ==> Newer(now.snapshot.value, before.snapshot.value)))
    decreases |events|
  {
    if events == [] {
      assert MemberOk(p, w.log, node, w.members[node]);
    } else {
      assert Stays(node, [events[0]]) by { assert events[0] == [events[0]][0]; }
      assert Stays(node, events[1..]) by {
        assert forall k :: 0 <= k < |events| - 1 ==> events[1..][k] == events[k + 1];
      }
      var next := Step(p, w, events[0]);
      StepKeeps(p, w, events[0]);
      StepAccepts(p, w, events[0], node);
      AcceptedStampsRise(p, next, events[1..], node);
      if next.members[node].view.stale {
        StaleStaysWithdrawn(p, next, events[1..], node);
      }
    }
  }

  // ---- The class issues only writes of the runs ----

  /** Every conditional write of one acquisition is legal on top of what that attempt read. */
  lemma {:induction false} AcquireRequestsLegal(nodeId: string, nodeGroup: string, local: seq<Service>,
                                                attempts: seq<Attempt>, k: nat, q: Request)
    requires k <= |attempts| && q in AcquireRequests(attempts, Candidates(nodeId, nodeGroup, local, attempts), k)
    ensures Legal(q.expected, q.body) && q.body.revision == 0 && q.body.leader == nodeId
    decreases |attempts| - k
  {
    var candidates := Candidates(nodeId, nodeGroup, local, attempts);
    if q != candidates[k].value {
      AcquireRequestsLegal(nodeId, nodeGroup, local, attempts, k + 1, q);
    }
  }
}
