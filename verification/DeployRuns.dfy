// Runs of many concurrent deploys and deletes. The index's tag is its content, so a value may leave and return between
// a read and a write. A client may stop at any moment and its write may still land afterwards, and the store may refuse
// a write although the index has not changed, report one as refused that landed, or refuse a payload that is not there.
module DeployRuns {
  import opened Net
  import opened Index
  import opened Deploy

  datatype Phase =
    | Uploading
    | Reading(tries: nat)
    | Writing(tries: nat, write: Write, waiting: bool)
    | Answered(tries: nat, landed: Option<nat>)
    | Finished(position: nat)
    | Exhausted
    | Abandoned(landed: Option<nat>)

  // One operation; `since` is the number of commits when it began, `spurned` the refusals without a change, `lost` the
  // commits it made and was told were refused.
  datatype Client = Client(request: Request, since: nat, spurned: nat, lost: set<nat>, phase: Phase)
  datatype Commit = Commit(client: nat, request: Request)

  // `presumed` are the payload keys that were refused while absent, which clients take for stored.
  datatype World = World(store: map<string, seq<Byte>>, presumed: set<string>, index: Option<Deployments>,
                         commits: seq<Commit>, clients: map<nat, Client>)

  datatype Event =
    | Begin(client: nat, request: Request)
    | Arrive(client: nat, upload: Upload)
    | Presume(client: nat, upload: Upload)
    | Uploaded(client: nat)
    | ReadIndex(client: nat)
    | Serve(client: nat)
    | Spurn(client: nat)
    | Misreport(client: nat)
    | Hear(client: nat)
    | Stop(client: nat)

  function AsRead(index: Option<Deployments>): Read {
    if index.None? then Absent else Body(index)
  }

  function Contents(index: Option<Deployments>): Deployments {
    if index.None? then map[] else index.value
  }

  // The commit this operation made that was not reported as refused, if it made one.
  function Position(phase: Phase): Option<nat> {
    match phase
    case Answered(_, landed) => landed
    case Finished(position) => Some(position)
    case Abandoned(landed) => landed
    case _ => None
  }

  predicate AllTaken(store: map<string, seq<Byte>>, presumed: set<string>, uploads: seq<Upload>) {
    forall i :: 0 <= i < |uploads| ==> uploads[i].key in store || uploads[i].key in presumed
  }

  predicate Enabled(digest: Digest, w: World, e: Event) {
    match e
    case Begin(c, request) => c !in w.clients && Named(request)
    case Arrive(c, upload) => c in w.clients && upload in Uploads(digest, w.clients[c].request)
    case Presume(c, upload) =>
      c in w.clients && upload in Uploads(digest, w.clients[c].request) && upload.key !in w.store
    case Uploaded(c) =>
      && c in w.clients && w.clients[c].phase == Uploading
      && AllTaken(w.store, w.presumed, Uploads(digest, w.clients[c].request))
    case ReadIndex(c) => c in w.clients && w.clients[c].phase.Reading?
    case Serve(c) => c in w.clients && w.clients[c].phase.Writing?
    case Spurn(c) => c in w.clients && w.clients[c].phase.Writing?
    case Misreport(c) =>
      c in w.clients && w.clients[c].phase.Writing? && w.clients[c].phase.waiting
      && w.index == w.clients[c].phase.write.expected
    case Hear(c) => c in w.clients && w.clients[c].phase.Answered?
    case Stop(c) => c in w.clients && Stoppable(w.clients[c].phase)
  }

  predicate Stoppable(phase: Phase) {
    phase == Uploading || phase.Reading? || (phase.Writing? && phase.waiting) || phase.Answered?
  }

  function AfterRead(digest: Digest, q: Request, index: Option<Deployments>, tries: nat): Phase {
    match CandidateOf(digest, q, AsRead(index))
    case Some(write) => Writing(tries, write, true)
    case None => Abandoned(None)
  }

  function AfterServe(phase: Phase, landed: Option<nat>): Phase
    requires phase.Writing?
  {
    if phase.waiting then Answered(phase.tries, landed) else Abandoned(landed)
  }

  // Refused by a conflicting request that changed nothing.
  function Spurned(client: Client): Client
    requires client.phase.Writing?
  {
    client.(spurned := client.spurned + 1, phase := AfterServe(client.phase, None))
  }

  // Told that the write was refused although it landed as commit k.
  function Misled(client: Client, k: nat): Client
    requires client.phase.Writing?
  {
    client.(lost := client.lost + {k}, phase := AfterServe(client.phase, None))
  }

  function Reported(client: Client, k: nat): Client
    requires client.phase.Writing?
  {
    client.(phase := AfterServe(client.phase, Some(k)))
  }

  // The client's write lands, and it goes on as `next`.
  function Landed(w: World, c: nat, next: Client): World
    requires c in w.clients && w.clients[c].phase.Writing?
  {
    World(w.store, w.presumed, Some(w.clients[c].phase.write.body), w.commits + [Commit(c, w.clients[c].request)],
          w.clients[c := next])
  }

  function AfterHear(phase: Phase): Phase
    requires phase.Answered?
  {
    match phase.landed
    case Some(position) => Finished(position)
    case None => if phase.tries + 1 < ATTEMPTS then Reading(phase.tries + 1) else Exhausted
  }

  function AfterStop(phase: Phase): Phase
    requires Stoppable(phase)
  {
    match phase
    case Writing(tries, write, _) => Writing(tries, write, false)
    case Answered(_, landed) => Abandoned(landed)
    case _ => Abandoned(None)
  }

  function Step(digest: Digest, w: World, e: Event): World
    requires Enabled(digest, w, e)
  {
    match e
    case Begin(c, request) => w.(clients := w.clients[c := Client(request, |w.commits|, 0, {}, Uploading)])
    case Arrive(_, upload) => if upload.key in w.store then w else w.(store := w.store[upload.key := upload.body])
    case Presume(_, upload) => w.(presumed := w.presumed + {upload.key})
    case Uploaded(c) => w.(clients := w.clients[c := w.clients[c].(phase := Reading(0))])
    case ReadIndex(c) =>
      var client := w.clients[c];
      w.(clients := w.clients[c := client.(phase := AfterRead(digest, client.request, w.index, client.phase.tries))])
    case Serve(c) =>
      var client := w.clients[c];
      if w.index == client.phase.write.expected then Landed(w, c, Reported(client, |w.commits|))
      else w.(clients := w.clients[c := client.(phase := AfterServe(client.phase, None))])
    case Spurn(c) => w.(clients := w.clients[c := Spurned(w.clients[c])])
    case Misreport(c) => Landed(w, c, Misled(w.clients[c], |w.commits|))
    case Hear(c) => w.(clients := w.clients[c := w.clients[c].(phase := AfterHear(w.clients[c].phase))])
    case Stop(c) => w.(clients := w.clients[c := w.clients[c].(phase := AfterStop(w.clients[c].phase))])
  }

  predicate Run(digest: Digest, w: World, events: seq<Event>)
    decreases |events|
  {
    events == [] || (Enabled(digest, w, events[0]) && Run(digest, Step(digest, w, events[0]), events[1..]))
  }

  function After(digest: Digest, w: World, events: seq<Event>): World
    requires Run(digest, w, events)
    decreases |events|
  {
    if events == [] then w else After(digest, Step(digest, w, events[0]), events[1..])
  }

  // ---- The sequential meaning ----

  // The index after a sequence of commits, one at a time, each on the result of the one before.
  function Replay(digest: Digest, base: Option<Deployments>, commits: seq<Commit>): Option<Deployments> {
    if commits == [] then base
    else
      var last := |commits| - 1;
      Some(Mutate(digest, commits[last].request, Contents(Replay(digest, base, commits[..last]))))
  }

  predicate Resolves(digest: Digest, store: map<string, seq<Byte>>, key: string) {
    key in store && Verify(digest, key, store[key])
  }

  predicate Refers(index: Deployments, reference: string) {
    exists key :: key in index && (index[key].pod == reference || (index[key].service == reference && reference != ""))
  }

  // Every reference of the index is stored and verifies, or is presumed.
  predicate Backed(digest: Digest, store: map<string, seq<Byte>>, presumed: set<string>, index: Deployments) {
    forall key :: key in index ==>
      && (Resolves(digest, store, index[key].pod) || index[key].pod in presumed)
      && (index[key].service != "" ==> Resolves(digest, store, index[key].service) || index[key].service in presumed)
  }

  predicate Sound(digest: Digest, store: map<string, seq<Byte>>, presumed: set<string>, index: Option<Deployments>) {
    ValidIndex(Contents(index)) && Backed(digest, store, presumed, Contents(index))
  }

  predicate Addressed(digest: Digest, store: map<string, seq<Byte>>) {
    forall key :: key in store && ObjectDigest(key).Some? ==> Verify(digest, key, store[key])
  }

  // Operations start over any sound index and content-addressed store.
  predicate Start(digest: Digest, w: World) {
    && w.commits == [] && w.clients == map[] && w.presumed == {}
    && Sound(digest, w.store, {}, w.index) && Addressed(digest, w.store)
  }

  // ---- The invariant ----

  predicate WriteOk(digest: Digest, q: Request, write: Write) {
    write.body == Mutate(digest, q, Contents(write.expected)) && ValidIndex(write.body)
  }

  // Each conflict is paid for by a commit since the operation began, or is one the store made without a change.
  predicate Progress(w: World, client: Client) {
    var paid := |w.commits| + client.spurned;
    match client.phase
    case Reading(tries) => paid >= client.since + tries && tries < ATTEMPTS
    case Writing(tries, write, _) =>
      paid >= client.since + tries && (w.index == write.expected || paid > client.since + tries)
    case Answered(tries, landed) => landed.None? ==> paid > client.since + tries
    case Exhausted => paid >= client.since + ATTEMPTS
    case _ => true
  }

  predicate ClientOk(digest: Digest, w: World, c: nat, client: Client) {
    && Named(client.request) && client.since <= |w.commits|
    && (client.phase.Reading? || client.phase.Writing? || client.phase.Answered? ==>
        AllTaken(w.store, w.presumed, Uploads(digest, client.request)))
    && (client.phase.Writing? ==> WriteOk(digest, client.request, client.phase.write))
    && (Position(client.phase).Some? ==>
          var k := Position(client.phase).value;
          && client.since <= k < |w.commits| && w.commits[k] == Commit(c, client.request)
          && forall i :: i in client.lost ==> i < k)
    && (forall i :: i in client.lost ==>
          client.since <= i < |w.commits| && w.commits[i] == Commit(c, client.request))
    && Progress(w, client)
  }

  predicate Made(client: Client, k: nat) { Position(client.phase) == Some(k) || k in client.lost }

  predicate CommitsOwned(w: World) {
    forall k :: 0 <= k < |w.commits| ==> w.commits[k].client in w.clients && Made(w.clients[w.commits[k].client], k)
  }

  ghost predicate AllSound(digest: Digest, store: map<string, seq<Byte>>, presumed: set<string>,
                           base: Option<Deployments>, commits: seq<Commit>) {
    forall k :: 0 <= k <= |commits| ==> Sound(digest, store, presumed, Replay(digest, base, commits[..k]))
  }

  ghost predicate History(digest: Digest, base: Option<Deployments>, w: World) {
    && w.index == Replay(digest, base, w.commits)
    && AllSound(digest, w.store, w.presumed, base, w.commits)
  }

  ghost predicate Invariant(digest: Digest, base: Option<Deployments>, w: World) {
    && History(digest, base, w) && Addressed(digest, w.store) && CommitsOwned(w)
    && forall c :: c in w.clients ==> ClientOk(digest, w, c, w.clients[c])
  }

  // ---- Payloads ----

  lemma {:induction false} FilenameAfter(path: string, f: string)
    requires SlashFree(f)
    ensures Filename(path + "/" + f) == f
  {
    var s := path + "/" + f;
    assert s[|path|] == '/';
    if path == [] {
      assert s[1..] == f;
    } else {
      FilenameAfter(path[1..], f);
      assert s[1..] == path[1..] + "/" + f;
    }
  }

  lemma AddressVerifies(digest: Digest, path: string, body: seq<Byte>)
    requires HexDigest(digest)
    ensures Verify(digest, path + "/" + (digest(body) + SUFFIX), body)
  {
    var f := digest(body) + SUFFIX;
    assert DigestText(digest(body));
    assert SlashFree(f);
    assert f[..|f| - |SUFFIX|] == digest(body) && f[|f| - |SUFFIX|..] == SUFFIX;
    FilenameAfter(path, f);
  }

  // Whatever the names, an uploaded payload sits under its own digest.
  lemma UploadAddressed(digest: Digest, q: Request, u: Upload)
    requires HexDigest(digest) && u in Uploads(digest, q)
    ensures Verify(digest, u.key, u.body)
  {
    var f := digest(u.body) + SUFFIX;
    if u == Uploads(digest, q)[0] {
      AddressVerifies(digest, "nodegroups/" + q.nodeGroup + "/pods/sha512", u.body);
      assert u.key == "nodegroups/" + q.nodeGroup + "/pods/sha512" + "/" + f;
    } else {
      var s := q.service.value;
      AddressVerifies(digest, "services/" + s.namespace + "/" + s.name + "/sha512", u.body);
      assert u.key == "services/" + s.namespace + "/" + s.name + "/sha512" + "/" + f;
    }
  }

  lemma UploadsCoverReference(digest: Digest, store: map<string, seq<Byte>>, presumed: set<string>, q: Request)
    requires HexDigest(digest) && Addressed(digest, store) && q.Apply?
    requires AllTaken(store, presumed, Uploads(digest, q))
    ensures var r := Reference(digest, q);
            && (Resolves(digest, store, r.pod) || r.pod in presumed)
            && (q.service.Some? ==> Resolves(digest, store, r.service) || r.service in presumed)
            && (q.service.None? ==> r.service == "")
  {
    var uploads := Uploads(digest, q);
    UploadAddressed(digest, q, uploads[0]);
    if q.service.Some? {
      UploadAddressed(digest, q, uploads[1]);
    }
  }

  lemma MutateBacked(digest: Digest, store: map<string, seq<Byte>>, presumed: set<string>, q: Request,
                     index: Deployments)
    requires HexDigest(digest) && Addressed(digest, store) && AllTaken(store, presumed, Uploads(digest, q))
             && Backed(digest, store, presumed, index)
    ensures Backed(digest, store, presumed, Mutate(digest, q, index))
  {
    if q.Apply? {
      UploadsCoverReference(digest, store, presumed, q);
    }
  }

  // ---- Steps ----

  lemma SoundWithMore(digest: Digest, w: World, v: World, index: Option<Deployments>)
    requires Sound(digest, w.store, w.presumed, index) && w.presumed <= v.presumed
    requires forall key :: key in w.store ==> key in v.store && v.store[key] == w.store[key]
    ensures Sound(digest, v.store, v.presumed, index)
  {
  }

  lemma ClientWithMore(digest: Digest, w: World, v: World, c: nat, client: Client)
    requires ClientOk(digest, w, c, client) && v.commits == w.commits && v.index == w.index
    requires w.presumed <= v.presumed && forall key :: key in w.store ==> key in v.store
    ensures ClientOk(digest, v, c, client)
  {
  }

  // More payloads stored or presumed, all under their own digests.
  lemma PayloadsKeep(digest: Digest, base: Option<Deployments>, w: World, v: World)
    requires Invariant(digest, base, w) && Addressed(digest, v.store) && w.presumed <= v.presumed
    requires forall key :: key in w.store ==> key in v.store && v.store[key] == w.store[key]
    requires v == w.(store := v.store, presumed := v.presumed)
    ensures Invariant(digest, base, v)
  {
    forall k | 0 <= k <= |w.commits|
      ensures Sound(digest, v.store, v.presumed, Replay(digest, base, w.commits[..k]))
    {
      SoundWithMore(digest, w, v, Replay(digest, base, w.commits[..k]));
    }
    forall c | c in v.clients
      ensures ClientOk(digest, v, c, v.clients[c])
    {
      ClientWithMore(digest, w, v, c, w.clients[c]);
    }
  }

  lemma MoveOwned(w: World, c: nat, client: Client)
    requires CommitsOwned(w)
    requires c in w.clients ==>
               Position(client.phase) == Position(w.clients[c].phase) && client.lost == w.clients[c].lost
    ensures CommitsOwned(w.(clients := w.clients[c := client]))
  {
    forall k | 0 <= k < |w.commits|
      ensures Made(w.clients[c := client][w.commits[k].client], k)
    {
      assert Made(w.clients[w.commits[k].client], k);
    }
  }

  // A client that moves on without touching the index.
  lemma MoveKeeps(digest: Digest, base: Option<Deployments>, w: World, c: nat, client: Client)
    requires Invariant(digest, base, w) && ClientOk(digest, w, c, client)
    requires c in w.clients ==>
               Position(client.phase) == Position(w.clients[c].phase) && client.lost == w.clients[c].lost
    ensures Invariant(digest, base, w.(clients := w.clients[c := client]))
  {
    var v := w.(clients := w.clients[c := client]);
    MoveOwned(w, c, client);
    forall d | d in v.clients
      ensures ClientOk(digest, v, d, v.clients[d])
    {
      assert d != c ==> ClientOk(digest, w, d, w.clients[d]);
      ClientWithMore(digest, w, v, d, v.clients[d]);
    }
  }

  lemma {:induction false} ReplayNext(digest: Digest, base: Option<Deployments>, commits: seq<Commit>, commit: Commit)
    ensures Replay(digest, base, commits + [commit])
            == Some(Mutate(digest, commit.request, Contents(Replay(digest, base, commits))))
  {
    assert (commits + [commit])[..|commits|] == commits;
  }

  lemma {:induction false} AllSoundNext(digest: Digest, store: map<string, seq<Byte>>, presumed: set<string>,
                                        base: Option<Deployments>, commits: seq<Commit>, commit: Commit)
    requires AllSound(digest, store, presumed, base, commits)
    requires Sound(digest, store, presumed, Replay(digest, base, commits + [commit]))
    ensures AllSound(digest, store, presumed, base, commits + [commit])
  {
    forall k | 0 <= k <= |commits| + 1
      ensures Sound(digest, store, presumed, Replay(digest, base, (commits + [commit])[..k]))
    {
      if k <= |commits| {
        assert (commits + [commit])[..k] == commits[..k];
      } else {
        assert (commits + [commit])[..k] == commits + [commit];
      }
    }
  }

  lemma {:induction false} LandHistory(digest: Digest, base: Option<Deployments>, w: World, c: nat, client: Client)
    requires HexDigest(digest) && History(digest, base, w) && Addressed(digest, w.store)
             && ClientOk(digest, w, c, client)
    requires client.phase.Writing? && w.index == client.phase.write.expected
    ensures Some(client.phase.write.body) == Replay(digest, base, w.commits + [Commit(c, client.request)])
    ensures AllSound(digest, w.store, w.presumed, base, w.commits + [Commit(c, client.request)])
  {
    ReplayNext(digest, base, w.commits, Commit(c, client.request));
    assert Sound(digest, w.store, w.presumed, w.index) by { assert w.commits[..|w.commits|] == w.commits; }
    MutateBacked(digest, w.store, w.presumed, client.request, Contents(w.index));
    AllSoundNext(digest, w.store, w.presumed, base, w.commits, Commit(c, client.request));
  }

  // The other operations when one commits.
  lemma LandOther(digest: Digest, w: World, v: World, d: nat, client: Client)
    requires ClientOk(digest, w, d, client) && v.store == w.store && v.presumed == w.presumed
    requires |v.commits| == |w.commits| + 1 && w.commits <= v.commits
    ensures ClientOk(digest, v, d, client)
  {
  }

  // What becomes of the client whose write landed as commit k.
  predicate Accounts(client: Client, next: Client, k: nat) {
    client.phase.Writing? && (next == Reported(client, k) || (client.phase.waiting && next == Misled(client, k)))
  }

  lemma LandSelf(digest: Digest, w: World, v: World, c: nat, client: Client, next: Client)
    requires ClientOk(digest, w, c, client) && Accounts(client, next, |w.commits|)
    requires v.store == w.store && v.presumed == w.presumed && v.commits == w.commits + [Commit(c, client.request)]
    ensures ClientOk(digest, v, c, next)
  {
  }

  lemma LandOwned(w: World, v: World, c: nat)
    requires c in w.clients && CommitsOwned(w) && v.clients.Keys == w.clients.Keys
    requires Accounts(w.clients[c], v.clients[c], |w.commits|)
    requires v.commits == w.commits + [Commit(c, w.clients[c].request)]
    requires forall d :: d in w.clients && d != c ==> v.clients[d] == w.clients[d]
    ensures CommitsOwned(v)
  {
    forall k | 0 <= k < |v.commits|
      ensures v.commits[k].client in v.clients && Made(v.clients[v.commits[k].client], k)
    {
      if k < |w.commits| {
        assert v.commits[k] == w.commits[k] && Made(w.clients[w.commits[k].client], k);
      }
    }
  }

  lemma LandClients(digest: Digest, w: World, v: World, c: nat, next: Client)
    requires c in w.clients && w.clients[c].phase.Writing? && Accounts(w.clients[c], next, |w.commits|)
    requires CommitsOwned(w) && forall d :: d in w.clients ==> ClientOk(digest, w, d, w.clients[d])
    requires v == Landed(w, c, next)
    ensures CommitsOwned(v) && forall d :: d in v.clients ==> ClientOk(digest, v, d, v.clients[d])
  {
    LandOwned(w, v, c);
    forall d | d in v.clients
      ensures ClientOk(digest, v, d, v.clients[d])
    {
      if d == c {
        LandSelf(digest, w, v, c, w.clients[c], next);
      } else {
        LandOther(digest, w, v, d, w.clients[d]);
      }
    }
  }

  lemma LandKeeps(digest: Digest, base: Option<Deployments>, w: World, c: nat, next: Client)
    requires HexDigest(digest) && Invariant(digest, base, w) && c in w.clients
    requires Accounts(w.clients[c], next, |w.commits|) && w.index == w.clients[c].phase.write.expected
    ensures Invariant(digest, base, Landed(w, c, next))
  {
    LandHistory(digest, base, w, c, w.clients[c]);
    LandClients(digest, w, Landed(w, c, next), c, next);
  }

  lemma ReadKeeps(digest: Digest, w: World, c: nat, client: Client)
    requires ClientOk(digest, w, c, client) && client.phase.Reading? && ValidIndex(Contents(w.index))
    ensures ClientOk(digest, w, c, client.(phase := AfterRead(digest, client.request, w.index, client.phase.tries)))
  {
  }

  lemma RefusalKeeps(digest: Digest, w: World, c: nat, client: Client)
    requires ClientOk(digest, w, c, client) && client.phase.Writing? && w.index != client.phase.write.expected
    ensures ClientOk(digest, w, c, client.(phase := AfterServe(client.phase, None)))
  {
  }

  lemma SpurnKeeps(digest: Digest, w: World, c: nat, client: Client)
    requires ClientOk(digest, w, c, client) && client.phase.Writing?
    ensures ClientOk(digest, w, c, Spurned(client))
  {
  }

  lemma HearKeeps(digest: Digest, w: World, c: nat, client: Client)
    requires ClientOk(digest, w, c, client) && client.phase.Answered?
    ensures ClientOk(digest, w, c, client.(phase := AfterHear(client.phase)))
  {
  }

  lemma StopKeeps(digest: Digest, w: World, c: nat, client: Client)
    requires ClientOk(digest, w, c, client) && Stoppable(client.phase)
    ensures ClientOk(digest, w, c, client.(phase := AfterStop(client.phase)))
  {
  }

  lemma IndexValid(digest: Digest, base: Option<Deployments>, w: World)
    requires History(digest, base, w)
    ensures ValidIndex(Contents(w.index))
  {
    assert w.commits[..|w.commits|] == w.commits;
    assert Sound(digest, w.store, w.presumed, w.index);
  }

  lemma ServeKeeps(digest: Digest, base: Option<Deployments>, w: World, c: nat)
    requires HexDigest(digest) && Invariant(digest, base, w) && Enabled(digest, w, Serve(c))
    ensures Invariant(digest, base, Step(digest, w, Serve(c)))
  {
    if w.index == w.clients[c].phase.write.expected {
      LandKeeps(digest, base, w, c, Reported(w.clients[c], |w.commits|));
    } else {
      RefusalKeeps(digest, w, c, w.clients[c]);
      MoveKeeps(digest, base, w, c, w.clients[c].(phase := AfterServe(w.clients[c].phase, None)));
    }
  }

  lemma PayloadStepKeeps(digest: Digest, base: Option<Deployments>, w: World, e: Event)
    requires HexDigest(digest) && Invariant(digest, base, w) && Enabled(digest, w, e) && (e.Arrive? || e.Presume?)
    ensures Invariant(digest, base, Step(digest, w, e))
  {
    if e.Presume? || e.upload.key !in w.store {
      UploadAddressed(digest, w.clients[e.client].request, e.upload);
      PayloadsKeep(digest, base, w, Step(digest, w, e));
    }
  }

  lemma ReadStepKeeps(digest: Digest, base: Option<Deployments>, w: World, c: nat)
    requires Invariant(digest, base, w) && Enabled(digest, w, ReadIndex(c))
    ensures Invariant(digest, base, Step(digest, w, ReadIndex(c)))
  {
    IndexValid(digest, base, w);
    ReadKeeps(digest, w, c, w.clients[c]);
    MoveKeeps(digest, base, w, c, Step(digest, w, ReadIndex(c)).clients[c]);
  }

  lemma ClientStepKeeps(digest: Digest, base: Option<Deployments>, w: World, e: Event)
    requires Invariant(digest, base, w) && Enabled(digest, w, e) && (e.Spurn? || e.Hear? || e.Stop?)
    ensures Invariant(digest, base, Step(digest, w, e))
  {
    var c, client := e.client, w.clients[e.client];
    if e.Spurn? {
      SpurnKeeps(digest, w, c, client);
      MoveKeeps(digest, base, w, c, Spurned(client));
    } else if e.Hear? {
      HearKeeps(digest, w, c, client);
      MoveKeeps(digest, base, w, c, client.(phase := AfterHear(client.phase)));
    } else {
      StopKeeps(digest, w, c, client);
      MoveKeeps(digest, base, w, c, client.(phase := AfterStop(client.phase)));
    }
  }

  lemma StepKeeps(digest: Digest, base: Option<Deployments>, w: World, e: Event)
    requires HexDigest(digest) && Invariant(digest, base, w) && Enabled(digest, w, e)
    ensures Invariant(digest, base, Step(digest, w, e))
  {
    match e
    case Begin(c, request) => MoveKeeps(digest, base, w, c, Client(request, |w.commits|, 0, {}, Uploading));
    case Arrive(_, _) => PayloadStepKeeps(digest, base, w, e);
    case Presume(_, _) => PayloadStepKeeps(digest, base, w, e);
    case Uploaded(c) => MoveKeeps(digest, base, w, c, w.clients[c].(phase := Reading(0)));
    case ReadIndex(c) => ReadStepKeeps(digest, base, w, c);
    case Serve(c) => ServeKeeps(digest, base, w, c);
    case Misreport(c) => LandKeeps(digest, base, w, c, Misled(w.clients[c], |w.commits|));
    case _ => ClientStepKeeps(digest, base, w, e);
  }

  lemma {:induction false} RunKeeps(digest: Digest, base: Option<Deployments>, w: World, events: seq<Event>)
    requires HexDigest(digest) && Invariant(digest, base, w) && Run(digest, w, events)
    ensures Invariant(digest, base, After(digest, w, events))
    decreases |events|
  {
    if events != [] {
      StepKeeps(digest, base, w, events[0]);
      RunKeeps(digest, base, Step(digest, w, events[0]), events[1..]);
    }
  }

  // ---- What holds over every run ----

  // All commits of an operation lie in its interval, and a successful one ends with the commit it was told of.
  predicate Linear(w: World) {
    && (forall k :: 0 <= k < |w.commits| ==>
          var c := w.commits[k].client;
          c in w.clients && w.clients[c].since <= k && w.commits[k].request == w.clients[c].request)
    && (forall c :: c in w.clients && w.clients[c].phase.Finished? ==>
          var k := w.clients[c].phase.position;
          k < |w.commits| && w.commits[k] == Commit(c, w.clients[c].request) && LastOf(w.commits, c, k))
  }

  predicate LastOf(commits: seq<Commit>, c: nat, k: nat) {
    forall i :: 0 <= i < |commits| && commits[i].client == c ==> i <= k
  }

  function Others(commits: seq<Commit>, c: nat): seq<Commit> {
    if commits == [] then []
    else
      var last := |commits| - 1;
      Others(commits[..last], c) + if commits[last].client == c then [] else [commits[last]]
  }

  // Each operation once, at its last commit.
  function Once(commits: seq<Commit>): seq<Commit> {
    if commits == [] then []
    else
      var last := |commits| - 1;
      Others(Once(commits[..last]), commits[last].client) + [commits[last]]
  }

  predicate ClientsDistinct(commits: seq<Commit>) {
    forall i, j :: 0 <= i < j < |commits| ==> commits[i].client != commits[j].client
  }

  // Every operation always commits the same request.
  predicate Constant(commits: seq<Commit>) {
    forall x, y :: x in commits && y in commits && x.client == y.client ==> x.request == y.request
  }

  lemma {:induction false} OthersMembers(commits: seq<Commit>, c: nat)
    ensures forall x :: x in Others(commits, c) <==> x in commits && x.client != c
    ensures ClientsDistinct(commits) ==> ClientsDistinct(Others(commits, c))
  {
    if commits != [] {
      var last := |commits| - 1;
      OthersMembers(commits[..last], c);
      assert commits == commits[..last] + [commits[last]];
    }
  }

  lemma {:induction false} OnceMembers(commits: seq<Commit>)
    requires Constant(commits)
    ensures ClientsDistinct(Once(commits)) && forall x :: x in Once(commits) <==> x in commits
  {
    if commits != [] {
      var last := |commits| - 1;
      var front := commits[..last];
      assert commits == front + [commits[last]];
      OnceMembers(front);
      OthersMembers(Once(front), commits[last].client);
      forall x | x in front && x.client == commits[last].client
        ensures x == commits[last]
      {
        assert x in commits;
      }
    }
  }

  // The same but for one deployment.
  ghost predicate AgreeBut(key: string, a: Deployments, b: Deployments) {
    forall k :: k != key ==> (k in a <==> k in b) && (k in a && k in b ==> a[k] == b[k])
  }

  lemma MutateAgrees(digest: Digest, q: Request, key: string, a: Deployments, b: Deployments)
    requires AgreeBut(key, a, b)
    ensures AgreeBut(key, Mutate(digest, q, a), Mutate(digest, q, b))
    ensures RequestKey(q) == key ==> Mutate(digest, q, a) == Mutate(digest, q, b)
  {
  }

  lemma MutateIsLocal(digest: Digest, q: Request, a: Deployments)
    ensures AgreeBut(RequestKey(q), Mutate(digest, q, a), a)
  {
  }

  lemma {:induction false} ReplayOthers(digest: Digest, base: Option<Deployments>, commits: seq<Commit>, c: nat,
                                        key: string)
    requires forall x :: x in commits && x.client == c ==> RequestKey(x.request) == key
    ensures AgreeBut(key, Contents(Replay(digest, base, Others(commits, c))), Contents(Replay(digest, base, commits)))
  {
    if commits != [] {
      var last := |commits| - 1;
      var front, x := commits[..last], commits[last];
      assert commits == front + [x];
      ReplayOthers(digest, base, front, c, key);
      if x.client == c {
        assert Others(commits, c) == Others(front, c);
        MutateIsLocal(digest, x.request, Contents(Replay(digest, base, front)));
      } else {
        ReplayNext(digest, base, Others(front, c), x);
        MutateAgrees(digest, x.request, key, Contents(Replay(digest, base, Others(front, c))),
                     Contents(Replay(digest, base, front)));
      }
    }
  }

  // Repeated commits do not show in the end: replaying each operation once, at its last commit, gives the same index.
  lemma {:induction false} ReplayOnce(digest: Digest, base: Option<Deployments>, commits: seq<Commit>)
    requires Constant(commits)
    ensures Replay(digest, base, Once(commits)) == Replay(digest, base, commits)
  {
    if commits != [] {
      var last := |commits| - 1;
      var front, x := commits[..last], commits[last];
      assert commits == front + [x];
      ReplayOnce(digest, base, front);
      OnceMembers(front);
      forall y | y in Once(front) && y.client == x.client
        ensures RequestKey(y.request) == RequestKey(x.request)
      {
        assert y in commits && x in commits;
      }
      var others := Others(Once(front), x.client);
      ReplayOthers(digest, base, Once(front), x.client, RequestKey(x.request));
      MutateAgrees(digest, x.request, RequestKey(x.request), Contents(Replay(digest, base, others)),
                   Contents(Replay(digest, base, front)));
      ReplayNext(digest, base, others, x);
    }
  }

  lemma CommitOwner(digest: Digest, w: World, k: nat)
    requires CommitsOwned(w) && k < |w.commits|
    requires forall c :: c in w.clients ==> ClientOk(digest, w, c, w.clients[c])
    ensures var c := w.commits[k].client;
            && c in w.clients && w.clients[c].since <= k && w.commits[k].request == w.clients[c].request
            && (Position(w.clients[c].phase).Some? ==> k <= Position(w.clients[c].phase).value)
  {
    var c := w.commits[k].client;
    assert Made(w.clients[c], k);
    assert ClientOk(digest, w, c, w.clients[c]);
  }

  lemma InvariantIsLinear(digest: Digest, base: Option<Deployments>, w: World)
    requires Invariant(digest, base, w)
    ensures Linear(w) && Constant(w.commits)
  {
    OwnedIsLinear(digest, w);
  }

  lemma OwnedIsLinear(digest: Digest, w: World)
    requires CommitsOwned(w) && forall c :: c in w.clients ==> ClientOk(digest, w, c, w.clients[c])
    ensures Linear(w) && Constant(w.commits)
  {
    forall k | 0 <= k < |w.commits|
      ensures var c := w.commits[k].client;
              && c in w.clients && w.clients[c].since <= k && w.commits[k].request == w.clients[c].request
              && (Position(w.clients[c].phase).Some? ==> k <= Position(w.clients[c].phase).value)
    {
      CommitOwner(digest, w, k);
    }
    forall c | c in w.clients && w.clients[c].phase.Finished?
      ensures var k := w.clients[c].phase.position;
              k < |w.commits| && w.commits[k] == Commit(c, w.clients[c].request)
    {
      assert ClientOk(digest, w, c, w.clients[c]);
    }
  }

  /** At every moment the index is the one-at-a-time replay of the operations that committed, each taken once at its
      last commit, which lies in the operation's own interval and for a successful one is the commit it was told of. */
  lemma {:induction false} Linearizable(digest: Digest, w: World, events: seq<Event>)
    requires HexDigest(digest) && Start(digest, w) && Run(digest, w, events)
    ensures var v := After(digest, w, events);
            && v.index == Replay(digest, w.index, v.commits) == Replay(digest, w.index, Once(v.commits))
            && ClientsDistinct(Once(v.commits)) && (forall x :: x in Once(v.commits) <==> x in v.commits)
            && Linear(v)
  {
    RunKeeps(digest, w.index, w, events);
    var v := After(digest, w, events);
    InvariantIsLinear(digest, w.index, v);
    ReplayOnce(digest, w.index, v.commits);
    OnceMembers(v.commits);
  }

  // ---- Order and effect ----

  lemma {:induction false} BegunLater(digest: Digest, w: World, events: seq<Event>, c: nat)
    requires Run(digest, w, events) && c !in w.clients && c in After(digest, w, events).clients
    ensures After(digest, w, events).clients[c].since >= |w.commits|
    decreases |events|
  {
    var next := Step(digest, w, events[0]);
    if c in next.clients {
      SinceFixed(digest, next, events[1..], c);
    } else {
      BegunLater(digest, next, events[1..], c);
    }
  }

  lemma {:induction false} SinceFixed(digest: Digest, w: World, events: seq<Event>, c: nat)
    requires Run(digest, w, events) && c in w.clients
    ensures c in After(digest, w, events).clients && After(digest, w, events).clients[c].since == w.clients[c].since
    decreases |events|
  {
    if events != [] {
      SinceFixed(digest, Step(digest, w, events[0]), events[1..], c);
    }
  }

  lemma {:induction false} FinishedStays(digest: Digest, w: World, events: seq<Event>, c: nat)
    requires Run(digest, w, events) && c in w.clients && w.clients[c].phase.Finished?
    ensures c in After(digest, w, events).clients && After(digest, w, events).clients[c] == w.clients[c]
    decreases |events|
  {
    if events != [] {
      FinishedStays(digest, Step(digest, w, events[0]), events[1..], c);
    }
  }

  /** Real-time order: an operation that begins after another has returned makes all its commits after all of its. */
  lemma {:induction false} RealTimeOrder(digest: Digest, w: World, before: seq<Event>, after: seq<Event>, a: nat,
                                         b: nat, i: nat, j: nat)
    requires HexDigest(digest) && Start(digest, w) && Run(digest, w, before)
             && Run(digest, After(digest, w, before), after)
    requires var v := After(digest, w, before); a in v.clients && v.clients[a].phase.Finished? && b !in v.clients
    requires var u := After(digest, After(digest, w, before), after);
             i < |u.commits| && j < |u.commits| && u.commits[i].client == a && u.commits[j].client == b
    ensures i < j
  {
    var v := After(digest, w, before);
    RunKeeps(digest, w.index, w, before);
    RunKeeps(digest, w.index, v, after);
    InvariantIsLinear(digest, w.index, v);
    InvariantIsLinear(digest, w.index, After(digest, v, after));
    FinishedStays(digest, v, after, a);
    BegunLater(digest, v, after, b);
  }

  // What a committed request says about its own deployment.
  predicate Effect(digest: Digest, q: Request, index: Deployments) {
    if q.Apply? then RequestKey(q) in index && index[RequestKey(q)] == Reference(digest, q) else RequestKey(q) !in index
  }

  // A commit's effect is in the replay until a later commit on the same deployment.
  lemma {:induction false} EffectsLast(digest: Digest, base: Option<Deployments>, commits: seq<Commit>, k: nat)
    requires k < |commits|
    requires forall j :: k < j < |commits| ==> RequestKey(commits[j].request) != RequestKey(commits[k].request)
    ensures Effect(digest, commits[k].request, Contents(Replay(digest, base, commits)))
    decreases |commits|
  {
    if k < |commits| - 1 {
      EffectsLast(digest, base, commits[..|commits| - 1], k);
    }
  }

  /** No lost update: what a successful operation did is in the stored index unless a later commit touched the same
      deployment. */
  lemma {:induction false} NoLostUpdate(digest: Digest, w: World, events: seq<Event>, c: nat)
    requires HexDigest(digest) && Start(digest, w) && Run(digest, w, events)
    requires var v := After(digest, w, events); c in v.clients && v.clients[c].phase.Finished?
    ensures var v := After(digest, w, events);
            var q, k := v.clients[c].request, v.clients[c].phase.position;
            || Effect(digest, q, Contents(v.index))
            || exists j :: k < j < |v.commits| && RequestKey(v.commits[j].request) == RequestKey(q)
  {
    Linearizable(digest, w, events);
    var v := After(digest, w, events);
    var q, k := v.clients[c].request, v.clients[c].phase.position;
    if forall j :: k < j < |v.commits| ==> RequestKey(v.commits[j].request) != RequestKey(q) {
      EffectsLast(digest, w.index, v.commits, k);
    }
  }

  /** Every write the loop issues is the mutation of exactly the index it expects to replace, and valid. */
  lemma {:induction false} WritesAreMutations(digest: Digest, q: Request, attempts: seq<Attempt>, k: nat, write: Write)
    requires k <= |attempts| && write in Writes(Candidates(digest, q, attempts), attempts, k)
    ensures WriteOk(digest, q, write)
    decreases |attempts| - k
  {
    var candidates := Candidates(digest, q, attempts);
    if write != candidates[k].value {
      WritesAreMutations(digest, q, attempts, k + 1, write);
    }
  }
}
