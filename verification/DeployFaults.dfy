// What an unreliable object store can do to concurrent deploys: operations that commit more than once, and payloads
// that are missing although an index refers to them.
module DeployFaults {
  import opened Net
  import opened Index
  import opened Deploy
  import opened DeployRuns

  // ---- Repeated commits ----

  function CommitsOf(w: World, c: nat): set<nat> {
    set k: nat | k < |w.commits| && w.commits[k].client == c
  }

  function LostBy(w: World, c: nat): nat { if c in w.clients then |w.clients[c].lost| else 0 }

  function SpurnedBy(w: World, c: nat): nat { if c in w.clients then w.clients[c].spurned else 0 }

  lemma StepAccounts(digest: Digest, w: World, e: Event, c: nat)
    requires Enabled(digest, w, e) && c in w.clients
    ensures var client, next := w.clients[c], Step(digest, w, e).clients;
            && c in next
            && next[c].lost == client.lost + (if e == Misreport(c) then {|w.commits|} else {})
            && next[c].spurned == client.spurned + if e == Spurn(c) then 1 else 0
  {
  }

  lemma StepBegins(digest: Digest, w: World, e: Event, c: nat)
    requires Enabled(digest, w, e) && c !in w.clients
    ensures var next := Step(digest, w, e).clients;
            c in next ==> next[c].lost == {} && next[c].spurned == 0
    ensures e != Misreport(c) && e != Spurn(c)
  {
  }

  lemma StepCounts(digest: Digest, base: Option<Deployments>, w: World, e: Event, c: nat)
    requires Invariant(digest, base, w) && Enabled(digest, w, e)
    ensures LostBy(Step(digest, w, e), c) == LostBy(w, c) + if e == Misreport(c) then 1 else 0
    ensures SpurnedBy(Step(digest, w, e), c) == SpurnedBy(w, c) + if e == Spurn(c) then 1 else 0
  {
    if c in w.clients {
      StepAccounts(digest, w, e, c);
      assert ClientOk(digest, w, c, w.clients[c]);
      assert |w.commits| !in w.clients[c].lost;
    } else {
      StepBegins(digest, w, e, c);
    }
  }

  lemma HeadCounts(events: seq<Event>, e: Event)
    requires events != []
    ensures multiset(events)[e] == multiset(events[1..])[e] + if events[0] == e then 1 else 0
  {
    assert events == [events[0]] + events[1..];
  }

  lemma {:induction false} RunCounts(digest: Digest, base: Option<Deployments>, w: World, events: seq<Event>, c: nat)
    requires HexDigest(digest) && Invariant(digest, base, w) && Run(digest, w, events)
    ensures LostBy(After(digest, w, events), c) == LostBy(w, c) + multiset(events)[Misreport(c)]
    ensures SpurnedBy(After(digest, w, events), c) == SpurnedBy(w, c) + multiset(events)[Spurn(c)]
    decreases |events|
  {
    if events != [] {
      StepKeeps(digest, base, w, events[0]);
      StepCounts(digest, base, w, events[0], c);
      RunCounts(digest, base, Step(digest, w, events[0]), events[1..], c);
      HeadCounts(events, Misreport(c));
      HeadCounts(events, Spurn(c));
    }
  }

  lemma OwnCommits(digest: Digest, base: Option<Deployments>, w: World, c: nat)
    requires Invariant(digest, base, w) && c in w.clients
    ensures var position := Position(w.clients[c].phase);
            && (position.Some? ==> position.value !in w.clients[c].lost)
            && CommitsOf(w, c) == w.clients[c].lost + if position.Some? then {position.value} else {}
  {
    assert ClientOk(digest, w, c, w.clients[c]);
    forall k: nat
      ensures k in CommitsOf(w, c) <==> Made(w.clients[c], k)
    {
      if k in CommitsOf(w, c) {
        assert Made(w.clients[w.commits[k].client], k);
      }
    }
  }

  /** An operation commits exactly as often as its landed writes were reported as refused, and once more if it has a
      write that landed otherwise. */
  lemma {:induction false} CommitsCountedExactly(digest: Digest, w: World, events: seq<Event>, c: nat)
    requires HexDigest(digest) && Start(digest, w) && Run(digest, w, events) && c in After(digest, w, events).clients
    ensures var v := After(digest, w, events);
            |CommitsOf(v, c)|
            == multiset(events)[Misreport(c)] + if Position(v.clients[c].phase).Some? then 1 else 0
  {
    RunKeeps(digest, w.index, w, events);
    RunCounts(digest, w.index, w, events, c);
    OwnCommits(digest, w.index, After(digest, w, events), c);
  }

  lemma TwoMembers(s: set<nat>, i: nat, j: nat)
    requires i in s && j in s && i != j
    ensures |s| >= 2
  {
    assert |{i, j}| == 2 && {i, j} + (s - {i, j}) == s;
  }

  lemma MembersOfTwo(s: set<nat>) returns (i: nat, j: nat)
    requires |s| >= 2
    ensures i in s && j in s && i < j
  {
    var a :| a in s;
    assert |s - {a}| == |s| - 1;
    var b :| b in s - {a};
    i, j := if a < b then a else b, if a < b then b else a;
  }

  /** An operation commits more than once if and only if one of its landed writes was reported as refused and another of
      its writes landed too. */
  lemma {:induction false} CommitsTwiceExactly(digest: Digest, w: World, events: seq<Event>, c: nat)
    requires HexDigest(digest) && Start(digest, w) && Run(digest, w, events) && c in After(digest, w, events).clients
    ensures var v := After(digest, w, events);
            (exists i, j :: 0 <= i < j < |v.commits| && v.commits[i].client == c && v.commits[j].client == c) <==>
              multiset(events)[Misreport(c)] >= (if Position(v.clients[c].phase).Some? then 1 else 2)
  {
    CommitsCountedExactly(digest, w, events, c);
    var v := After(digest, w, events);
    if i, j :| 0 <= i < j < |v.commits| && v.commits[i].client == c && v.commits[j].client == c {
      TwoMembers(CommitsOf(v, c), i, j);
    }
    if |CommitsOf(v, c)| >= 2 {
      var i, j := MembersOfTwo(CommitsOf(v, c));
      assert v.commits[i].client == c && v.commits[j].client == c;
    }
  }

  // ---- Payloads over runs ----

  predicate Arrives(events: seq<Event>, key: string) {
    exists e :: e in events && e.Arrive? && e.upload.key == key
  }

  predicate Presumes(events: seq<Event>, key: string) {
    exists e :: e in events && e.Presume? && e.upload.key == key
  }

  // A payload that was refused while absent, and was neither there before nor stored in the run.
  predicate Dangles(w: World, events: seq<Event>, key: string) {
    key !in w.store && !Arrives(events, key) && Presumes(events, key)
  }

  lemma {:induction false} PayloadsComeFrom(digest: Digest, w: World, events: seq<Event>, key: string)
    requires Run(digest, w, events)
    ensures key in After(digest, w, events).store <==> key in w.store || Arrives(events, key)
    ensures key in After(digest, w, events).presumed <==> key in w.presumed || Presumes(events, key)
    decreases |events|
  {
    if events != [] {
      var e, rest := events[0], events[1..];
      PayloadsComeFrom(digest, Step(digest, w, e), rest, key);
      assert forall x :: x in events <==> x == e || x in rest;
      assert Arrives(events, key) <==> (e.Arrive? && e.upload.key == key) || Arrives(rest, key);
      assert Presumes(events, key) <==> (e.Presume? && e.upload.key == key) || Presumes(rest, key);
    }
  }

  // Presumed payloads have content addresses.
  predicate PresumedNamed(w: World) {
    forall key :: key in w.presumed ==> ObjectDigest(key).Some?
  }

  lemma {:induction false} PresumedAddressed(digest: Digest, w: World, events: seq<Event>)
    requires HexDigest(digest) && PresumedNamed(w) && Run(digest, w, events)
    ensures PresumedNamed(After(digest, w, events))
    decreases |events|
  {
    if events != [] {
      if events[0].Presume? {
        UploadAddressed(digest, w.clients[events[0].client].request, events[0].upload);
      }
      PresumedAddressed(digest, Step(digest, w, events[0]), events[1..]);
    }
  }

  /** Every index ever committed is valid, so Service identities are unique. A reference in it resolves and verifies
      unless its payload was refused while absent and was neither there before nor stored in the run, and only then. */
  lemma {:induction false} EveryCommittedIndexIsSound(digest: Digest, w: World, events: seq<Event>, k: nat,
                                                      reference: string)
    requires HexDigest(digest) && Start(digest, w) && Run(digest, w, events) && k <= |After(digest, w, events).commits|
    ensures var v := After(digest, w, events);
            var index := Contents(Replay(digest, w.index, v.commits[..k]));
            && ValidIndex(index)
            && (Refers(index, reference) ==>
                  (Resolves(digest, v.store, reference) <==> !Dangles(w, events, reference)))
  {
    RunKeeps(digest, w.index, w, events);
    PresumedAddressed(digest, w, events);
    PayloadsComeFrom(digest, w, events, reference);
    var v := After(digest, w, events);
    assert Sound(digest, v.store, v.presumed, Replay(digest, w.index, v.commits[..k]));
  }

  /** A run without such refusals leaves nothing dangling: every reference of every committed index resolves. */
  lemma {:induction false} NothingMissing(digest: Digest, w: World, events: seq<Event>)
    requires HexDigest(digest) && Start(digest, w) && Run(digest, w, events)
    requires forall e :: e in events ==> !e.Presume?
    ensures var v := After(digest, w, events);
            forall k, reference :: 0 <= k <= |v.commits| ==>
              Refers(Contents(Replay(digest, w.index, v.commits[..k])), reference) ==>
              Resolves(digest, v.store, reference)
  {
    var v := After(digest, w, events);
    forall k, reference | 0 <= k <= |v.commits| && Refers(Contents(Replay(digest, w.index, v.commits[..k])), reference)
      ensures Resolves(digest, v.store, reference)
    {
      EveryCommittedIndexIsSound(digest, w, events, k, reference);
    }
  }

  // One client alone whose only payload is refused while absent.
  function Unlucky(digest: Digest, q: Request): seq<Event>
    requires q.Apply?
  {
    [Begin(0, q), Presume(0, Uploads(digest, q)[0]), Uploaded(0), ReadIndex(0), Serve(0)]
  }

  const EMPTY := World(map[], {}, None, [], map[])

  // The state after each of those steps.
  function UnluckyAt(digest: Digest, q: Request, phase: Phase): World
    requires q.Apply?
  {
    World(map[], {Reference(digest, q).pod}, None, [], map[0 := Client(q, 0, 0, {}, phase)])
  }

  // The committed index whose only reference does not resolve.
  function Unresolved(digest: Digest, q: Request): World
    requires q.Apply?
  {
    UnluckyAt(digest, q, Answered(0, Some(0))).(index := Some(Mutate(digest, q, map[])), commits := [Commit(0, q)])
  }

  lemma {:induction false} RunFirst(digest: Digest, w: World, e: Event, v: World, rest: seq<Event>)
    requires Enabled(digest, w, e) && Step(digest, w, e) == v && Run(digest, v, rest)
    ensures Run(digest, w, [e] + rest) && After(digest, w, [e] + rest) == After(digest, v, rest)
  {
    assert ([e] + rest)[1..] == rest;
  }

  lemma {:induction false} UnluckyUpload(digest: Digest, q: Request, rest: seq<Event>)
    requires q.Apply? && q.service.None? && Named(q) && Run(digest, UnluckyAt(digest, q, Reading(0)), rest)
    ensures var events := [Begin(0, q)] + ([Presume(0, Uploads(digest, q)[0])] + ([Uploaded(0)] + rest));
            && Run(digest, EMPTY, events)
            && After(digest, EMPTY, events) == After(digest, UnluckyAt(digest, q, Reading(0)), rest)
  {
    var begun := EMPTY.(clients := map[0 := Client(q, 0, 0, {}, Uploading)]);
    var presume := Presume(0, Uploads(digest, q)[0]);
    RunFirst(digest, UnluckyAt(digest, q, Uploading), Uploaded(0), UnluckyAt(digest, q, Reading(0)), rest);
    RunFirst(digest, begun, presume, UnluckyAt(digest, q, Uploading), [Uploaded(0)] + rest);
    RunFirst(digest, EMPTY, Begin(0, q), begun, [presume] + ([Uploaded(0)] + rest));
  }

  lemma {:induction false} UnluckyCommit(digest: Digest, q: Request)
    requires q.Apply? && ValidIndex(Mutate(digest, q, map[]))
    ensures var reading := UnluckyAt(digest, q, Reading(0));
            && Run(digest, reading, [ReadIndex(0)] + ([Serve(0)] + []))
            && After(digest, reading, [ReadIndex(0)] + ([Serve(0)] + [])) == Unresolved(digest, q)
  {
    var writing := UnluckyAt(digest, q, Writing(0, Write(None, Mutate(digest, q, map[])), true));
    assert Run(digest, Unresolved(digest, q), []) && After(digest, Unresolved(digest, q), []) == Unresolved(digest, q);
    RunFirst(digest, writing, Serve(0), Unresolved(digest, q), []);
    RunFirst(digest, UnluckyAt(digest, q, Reading(0)), ReadIndex(0), writing, [Serve(0)] + []);
  }

  lemma {:induction false} UnluckyRun(digest: Digest, q: Request)
    requires HexDigest(digest) && q.Apply? && q.service.None? && Named(q)
    ensures Run(digest, EMPTY, Unlucky(digest, q)) && After(digest, EMPTY, Unlucky(digest, q)) == Unresolved(digest, q)
  {
    MutationAcceptedExactly(digest, q, map[]);
    UnluckyCommit(digest, q);
    var rest := [ReadIndex(0)] + ([Serve(0)] + []);
    UnluckyUpload(digest, q, rest);
    assert [Begin(0, q)] + ([Presume(0, Uploads(digest, q)[0])] + ([Uploaded(0)] + rest)) == Unlucky(digest, q);
  }

  /** A committed reference can dangle: any apply without a Service whose payload the store refuses while it is absent
      is committed to an empty index, and its reference does not resolve. */
  lemma DanglingIsReachable(digest: Digest, q: Request)
    requires HexDigest(digest) && q.Apply? && q.service.None? && Named(q)
    ensures Start(digest, EMPTY) && Run(digest, EMPTY, Unlucky(digest, q))
    ensures var v := After(digest, EMPTY, Unlucky(digest, q));
            && |v.commits| == 1 && v.index.Some? && Refers(v.index.value, Reference(digest, q).pod)
            && !Resolves(digest, v.store, Reference(digest, q).pod)
  {
    UnluckyRun(digest, q);
    var index := Mutate(digest, q, map[]);
    assert RequestKey(q) in index && index[RequestKey(q)].pod == Reference(digest, q).pod;
  }

  function Numbers(low: nat, high: nat): (r: set<nat>)
    requires low <= high
    ensures |r| == high - low && forall k :: k in r <==> low <= k < high
    decreases high
  {
    if low == high then {} else Numbers(low, high - 1) + {high - 1}
  }

  // Commits of other operations since this one began.
  function Rivals(w: World, c: nat): set<nat>
    requires c in w.clients
  {
    set k: nat | w.clients[c].since <= k < |w.commits| && w.commits[k].client != c
  }

  lemma RivalsAndOwn(w: World, c: nat)
    requires c in w.clients && w.clients[c].since <= |w.commits|
    requires forall k :: k in CommitsOf(w, c) ==> w.clients[c].since <= k
    ensures |Rivals(w, c)| + |CommitsOf(w, c)| == |w.commits| - w.clients[c].since
  {
    assert Rivals(w, c) !! CommitsOf(w, c);
    assert Rivals(w, c) + CommitsOf(w, c) == Numbers(w.clients[c].since, |w.commits|);
  }

  lemma ExhaustionPaid(digest: Digest, base: Option<Deployments>, w: World, c: nat)
    requires Invariant(digest, base, w) && c in w.clients && w.clients[c].phase == Exhausted
    ensures CommitsOf(w, c) == w.clients[c].lost
    ensures |Rivals(w, c)| + w.clients[c].spurned + |w.clients[c].lost| >= ATTEMPTS
  {
    OwnCommits(digest, base, w, c);
    assert ClientOk(digest, w, c, w.clients[c]);
    RivalsAndOwn(w, c);
  }

  /** Each of the sixteen conflicts of an operation that gave up was a commit of another operation in its interval, a
      refusal without a change, or a landed write of its own reported as refused. */
  lemma {:induction false} ExhaustionMeansProgress(digest: Digest, w: World, events: seq<Event>, c: nat)
    requires HexDigest(digest) && Start(digest, w) && Run(digest, w, events)
    requires var v := After(digest, w, events); c in v.clients && v.clients[c].phase == Exhausted
    ensures var v := After(digest, w, events);
            && |Rivals(v, c)| + multiset(events)[Spurn(c)] + multiset(events)[Misreport(c)] >= 16
            && |CommitsOf(v, c)| == multiset(events)[Misreport(c)]
  {
    RunKeeps(digest, w.index, w, events);
    RunCounts(digest, w.index, w, events, c);
    ExhaustionPaid(digest, w.index, After(digest, w, events), c);
  }

  // ---- A delete undone by a repeated commit ----

  function Deletion(q: Request): Request { Delete(q.nodeGroup, q.name) }

  // The payload is stored and nothing is presumed.
  function Stocked(digest: Digest, q: Request, index: Option<Deployments>, commits: seq<Commit>,
                   clients: map<nat, Client>): World
    requires q.Apply?
  {
    World(map[Reference(digest, q).pod := q.pod], {}, index, commits, clients)
  }

  function Applied(digest: Digest, q: Request): Deployments { Mutate(digest, q, map[]) }

  // After a first write that landed and was reported as refused.
  function AfterFirst(digest: Digest, q: Request): World
    requires q.Apply?
  {
    Stocked(digest, q, Some(Applied(digest, q)), [Commit(0, q)], map[0 := Client(q, 0, 0, {0}, Answered(0, None))])
  }

  function DeleterAt(q: Request, phase: Phase): map<nat, Client> {
    map[0 := Client(q, 0, 0, {0}, Answered(0, None)), 1 := Client(Deletion(q), 1, 0, {}, phase)]
  }

  // After another client has deleted the deployment and returned.
  function AfterDelete(digest: Digest, q: Request): World
    requires q.Apply?
  {
    Stocked(digest, q, Some(map[]), [Commit(0, q), Commit(1, Deletion(q))], DeleterAt(q, Finished(1)))
  }

  function RetrierAt(q: Request, phase: Phase): map<nat, Client> {
    map[0 := Client(q, 0, 0, {0}, phase), 1 := Client(Deletion(q), 1, 0, {}, Finished(1))]
  }

  // After the first client has written again.
  function AfterRetry(digest: Digest, q: Request): World
    requires q.Apply?
  {
    Stocked(digest, q, Some(Applied(digest, q)), [Commit(0, q), Commit(1, Deletion(q)), Commit(0, q)],
            RetrierAt(q, Finished(2)))
  }

  // First then next: a sequence of events that ends in a given state.
  ghost predicate Leads(digest: Digest, w: World, events: seq<Event>, v: World) {
    Run(digest, w, events) && After(digest, w, events) == v
  }

  lemma {:induction false} LeadsOn(digest: Digest, w: World, e: Event, mid: World, rest: seq<Event>, v: World)
    requires Enabled(digest, w, e) && Step(digest, w, e) == mid && Leads(digest, mid, rest, v)
    ensures Leads(digest, w, [e] + rest, v)
  {
    RunFirst(digest, w, e, mid, rest);
  }

  lemma {:induction false} LeadsJoin(digest: Digest, u: World, a: seq<Event>, w: World, b: seq<Event>, v: World)
    requires Leads(digest, u, a, w) && Leads(digest, w, b, v)
    ensures Leads(digest, u, a + b, v)
    decreases |a|
  {
    if a == [] {
      assert a + b == b;
    } else {
      LeadsJoin(digest, Step(digest, u, a[0]), a[1..], w, b, v);
      assert (a + b)[1..] == a[1..] + b;
    }
  }

  function FirstEvents(digest: Digest, q: Request): seq<Event>
    requires q.Apply?
  {
    [Begin(0, q)] + ([Arrive(0, Uploads(digest, q)[0])] + ([Uploaded(0)] + ([ReadIndex(0)] + ([Misreport(0)] + []))))
  }

  function DeleteEvents(q: Request): seq<Event> {
    [Begin(1, Deletion(q))] + ([Uploaded(1)] + ([ReadIndex(1)] + ([Serve(1)] + ([Hear(1)] + []))))
  }

  function RetryEvents(): seq<Event> { [Hear(0)] + ([ReadIndex(0)] + ([Serve(0)] + ([Hear(0)] + []))) }

  lemma {:induction false} FirstLeads(digest: Digest, q: Request)
    requires q.Apply? && q.service.None? && Named(q) && ValidIndex(Applied(digest, q))
    ensures Leads(digest, EMPTY, FirstEvents(digest, q), AfterFirst(digest, q))
  {
    var e := FirstEvents(digest, q);
    var begun := EMPTY.(clients := map[0 := Client(q, 0, 0, {}, Uploading)]);
    var stored := Stocked(digest, q, None, [], map[0 := Client(q, 0, 0, {}, Uploading)]);
    var reading := Stocked(digest, q, None, [], map[0 := Client(q, 0, 0, {}, Reading(0))]);
    var write := Writing(0, Write(None, Applied(digest, q)), true);
    var writing := Stocked(digest, q, None, [], map[0 := Client(q, 0, 0, {}, write)]);
    var end := AfterFirst(digest, q);
    assert Leads(digest, end, [], end);
    assert Misled(writing.clients[0], 0).lost == {0};
    LeadsOn(digest, writing, Misreport(0), end, [], end);
    LeadsOn(digest, reading, ReadIndex(0), writing, [Misreport(0)] + [], end);
    LeadsOn(digest, stored, Uploaded(0), reading, [ReadIndex(0)] + ([Misreport(0)] + []), end);
    LeadsOn(digest, begun, e[1], stored, [Uploaded(0)] + ([ReadIndex(0)] + ([Misreport(0)] + [])), end);
    LeadsOn(digest, EMPTY, e[0], begun, [e[1]] + ([Uploaded(0)] + ([ReadIndex(0)] + ([Misreport(0)] + []))), end);
  }

  lemma DeletionEmpties(digest: Digest, q: Request)
    requires q.Apply?
    ensures Mutate(digest, Deletion(q), Applied(digest, q)) == map[]
  {
  }

  lemma DeleterMoves(q: Request, from: Phase, next: Phase)
    ensures DeleterAt(q, from)[1 := DeleterAt(q, from)[1].(phase := next)] == DeleterAt(q, next)
  {
  }

  lemma {:induction false} DeleteLands(digest: Digest, q: Request, writing: World)
    requires q.Apply?
    requires writing == Stocked(digest, q, Some(Applied(digest, q)), [Commit(0, q)],
                                DeleterAt(q, Writing(0, Write(Some(Applied(digest, q)), map[]), true)))
    ensures Leads(digest, writing, [Serve(1)] + ([Hear(1)] + []), AfterDelete(digest, q))
  {
    var served := AfterDelete(digest, q).(clients := DeleterAt(q, Answered(0, Some(1))));
    DeleterMoves(q, Answered(0, Some(1)), Finished(1));
    LeadsOn(digest, served, Hear(1), AfterDelete(digest, q), [], AfterDelete(digest, q));
    DeleterMoves(q, Writing(0, Write(Some(Applied(digest, q)), map[]), true), Answered(0, Some(1)));
    assert Step(digest, writing, Serve(1)).commits == served.commits;
    LeadsOn(digest, writing, Serve(1), served, [Hear(1)] + [], AfterDelete(digest, q));
  }

  lemma {:induction false} DeleteLeads(digest: Digest, q: Request)
    requires q.Apply? && Named(q) && ValidIndex(Applied(digest, q)) && ValidIndex(map[])
    ensures Leads(digest, AfterFirst(digest, q), DeleteEvents(q), AfterDelete(digest, q))
  {
    DeletionEmpties(digest, q);
    var index, commits, end := Some(Applied(digest, q)), [Commit(0, q)], AfterDelete(digest, q);
    var write := Writing(0, Write(index, map[]), true);
    var begun := Stocked(digest, q, index, commits, DeleterAt(q, Uploading));
    var reading := Stocked(digest, q, index, commits, DeleterAt(q, Reading(0)));
    var writing := Stocked(digest, q, index, commits, DeleterAt(q, write));
    DeleteLands(digest, q, writing);
    DeleterMoves(q, Reading(0), write);
    LeadsOn(digest, reading, ReadIndex(1), writing, [Serve(1)] + ([Hear(1)] + []), end);
    DeleterMoves(q, Uploading, Reading(0));
    LeadsOn(digest, begun, Uploaded(1), reading, [ReadIndex(1)] + ([Serve(1)] + ([Hear(1)] + [])), end);
    LeadsOn(digest, AfterFirst(digest, q), Begin(1, Deletion(q)), begun,
            [Uploaded(1)] + ([ReadIndex(1)] + ([Serve(1)] + ([Hear(1)] + []))), end);
  }

  lemma RetrierMoves(q: Request, from: Phase, next: Phase)
    ensures RetrierAt(q, from)[0 := RetrierAt(q, from)[0].(phase := next)] == RetrierAt(q, next)
  {
  }

  // The write of the second try lands and is reported.
  lemma {:induction false} RetryLands(digest: Digest, q: Request, writing: World)
    requires q.Apply?
    requires writing == Stocked(digest, q, Some(map[]), [Commit(0, q), Commit(1, Deletion(q))],
                                RetrierAt(q, Writing(1, Write(Some(map[]), Applied(digest, q)), true)))
    ensures Leads(digest, writing, [Serve(0)] + ([Hear(0)] + []), AfterRetry(digest, q))
  {
    var served := AfterRetry(digest, q).(clients := RetrierAt(q, Answered(1, Some(2))));
    RetrierMoves(q, Answered(1, Some(2)), Finished(2));
    LeadsOn(digest, served, Hear(0), AfterRetry(digest, q), [], AfterRetry(digest, q));
    RetrierMoves(q, Writing(1, Write(Some(map[]), Applied(digest, q)), true), Answered(1, Some(2)));
    assert Step(digest, writing, Serve(0)).commits == served.commits;
    LeadsOn(digest, writing, Serve(0), served, [Hear(0)] + [], AfterRetry(digest, q));
  }

  lemma {:induction false} RetryLeads(digest: Digest, q: Request)
    requires q.Apply? && ValidIndex(Applied(digest, q)) && ValidIndex(map[])
    ensures Leads(digest, AfterDelete(digest, q), RetryEvents(), AfterRetry(digest, q))
  {
    var commits := [Commit(0, q), Commit(1, Deletion(q))];
    var write := Writing(1, Write(Some(map[]), Applied(digest, q)), true);
    var reading := Stocked(digest, q, Some(map[]), commits, RetrierAt(q, Reading(1)));
    var writing := Stocked(digest, q, Some(map[]), commits, RetrierAt(q, write));
    RetryLands(digest, q, writing);
    RetrierMoves(q, Reading(1), write);
    LeadsOn(digest, reading, ReadIndex(0), writing, [Serve(0)] + ([Hear(0)] + []), AfterRetry(digest, q));
    RetrierMoves(q, Answered(0, None), Reading(1));
    LeadsOn(digest, AfterDelete(digest, q), Hear(0), reading, [ReadIndex(0)] + ([Serve(0)] + ([Hear(0)] + [])),
            AfterRetry(digest, q));
  }

  /** An operation can commit twice and undo what another did in between: an apply whose first write landed and was
      reported as refused, a delete that saw it and succeeded, and the apply again, which brings the deployment back. */
  lemma {:induction false} DeleteCanBeUndone(digest: Digest, q: Request)
    requires HexDigest(digest) && q.Apply? && q.service.None? && Named(q)
    ensures var events := FirstEvents(digest, q) + (DeleteEvents(q) + RetryEvents());
            && Start(digest, EMPTY) && Run(digest, EMPTY, events)
            && var v := After(digest, EMPTY, events);
               && v.commits == [Commit(0, q), Commit(1, Deletion(q)), Commit(0, q)]
               && 1 in v.clients && v.clients[1].phase == Finished(1)
               && v.index.Some? && RequestKey(q) in v.index.value
  {
    MutationAcceptedExactly(digest, q, map[]);
    FirstLeads(digest, q);
    DeleteLeads(digest, q);
    RetryLeads(digest, q);
    LeadsJoin(digest, AfterFirst(digest, q), DeleteEvents(q), AfterDelete(digest, q), RetryEvents(),
              AfterRetry(digest, q));
    LeadsJoin(digest, EMPTY, FirstEvents(digest, q), AfterFirst(digest, q), DeleteEvents(q) + RetryEvents(),
              AfterRetry(digest, q));
  }
}
