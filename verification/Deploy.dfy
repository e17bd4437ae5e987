// Committing desired state: immutable payloads first, then a bounded compare-and-swap loop on the index.
module Deploy {
  import opened Net
  import opened Wire
  import opened Index

  type Digest = seq<Byte> -> string

  datatype ServicePart = ServicePart(namespace: string, name: string, yaml: seq<Byte>)
  datatype Request =
    | Apply(nodeGroup: string, name: string, pod: seq<Byte>, service: Option<ServicePart>)
    | Delete(nodeGroup: string, name: string)

  datatype Upload = Upload(key: string, body: seq<Byte>)

  // A conditional write of the index: it lands only while the stored index still equals `expected`.
  datatype Write = Write(expected: Option<Deployments>, body: Deployments)
  datatype Reply = Stored | Conflict | Failed

  // The index as read: absent, unreadable, or a body with its decoding if it has one.
  datatype Read = Absent | Unreadable | Body(decoded: Option<Deployments>)
  datatype Attempt = Attempt(read: Read, reply: Reply)

  const ATTEMPTS := 16

  // The environment's answers to one bounded loop.
  predicate Bounded(attempts: seq<Attempt>) { |attempts| == ATTEMPTS }

  predicate Named(q: Request) { ValidID(q.nodeGroup) && ValidID(q.name) }

  function RequestKey(q: Request): string { DeploymentKey(q.nodeGroup, q.name) }

  // What an apply puts in the index.
  function Reference(digest: Digest, q: Request): Deployment
    requires q.Apply?
  {
    Deployment(PodKey(q.nodeGroup, digest(q.pod)),
               match q.service
               case Some(s) => ServiceKey(s.namespace, s.name, digest(s.yaml))
               case None => "")
  }

  // The payloads an apply stores beforehand.
  function Uploads(digest: Digest, q: Request): seq<Upload> {
    if q.Delete? then []
    else
      [Upload(PodKey(q.nodeGroup, digest(q.pod)), q.pod)]
      + match q.service
        case Some(s) => [Upload(ServiceKey(s.namespace, s.name, digest(s.yaml)), s.yaml)]
        case None => []
  }

  function Mutate(digest: Digest, q: Request, index: Deployments): Deployments {
    if q.Apply? then index[RequestKey(q) := Reference(digest, q)] else index - {RequestKey(q)}
  }

  // ---- The loop ----

  function Current(read: Read): Option<Deployments> {
    match read
    case Absent => Some(map[])
    case Unreadable => None
    case Body(decoded) => if decoded.Some? && ValidIndex(decoded.value) then decoded else None
  }

  function CandidateOf(digest: Digest, q: Request, read: Read): Option<Write> {
    if Current(read).None? then None
    else
      var body := Mutate(digest, q, Current(read).value);
      if ValidIndex(body) then Some(Write(if read == Absent then None else Current(read), body)) else None
  }

  function Candidates(digest: Digest, q: Request, attempts: seq<Attempt>): (r: seq<Option<Write>>)
    ensures |r| == |attempts| && forall k :: 0 <= k < |r| ==> r[k] == CandidateOf(digest, q, attempts[k].read)
  {
    seq(|attempts|, k requires 0 <= k < |attempts| => CandidateOf(digest, q, attempts[k].read))
  }

  // The writes issued from attempt k on: a further one only after a conflict.
  function Writes(candidates: seq<Option<Write>>, attempts: seq<Attempt>, k: nat): seq<Write>
    requires k <= |attempts| == |candidates|
    decreases |attempts| - k
  {
    if k == |attempts| || candidates[k].None? then []
    else [candidates[k].value] + if attempts[k].reply == Conflict then Writes(candidates, attempts, k + 1) else []
  }

  lemma WriteStep(done: seq<Write>, candidates: seq<Option<Write>>, attempts: seq<Attempt>, k: nat)
    requires k < |attempts| == |candidates| && candidates[k].Some?
    ensures done + Writes(candidates, attempts, k)
         == done + [candidates[k].value]
            + if attempts[k].reply == Conflict then Writes(candidates, attempts, k + 1) else []
  {
  }

  // Whether the loop from attempt k on reports success.
  predicate Commits(candidates: seq<Option<Write>>, attempts: seq<Attempt>, k: nat)
    requires k <= |attempts| == |candidates|
    decreases |attempts| - k
  {
    && k < |attempts| && candidates[k].Some?
    && (attempts[k].reply == Stored || (attempts[k].reply == Conflict && Commits(candidates, attempts, k + 1)))
  }

  /** The loop reports success if and only if the last write it issued was answered as stored, every one before it
      having met a conflict. Each write is what its own attempt made of what it read. If every attempt meets a conflict
      the loop gives up after sixteen writes. */
  lemma {:induction false} LoopExactly(candidates: seq<Option<Write>>, attempts: seq<Attempt>)
    requires |attempts| == |candidates|
    ensures var writes := Writes(candidates, attempts, 0);
            && |writes| <= |attempts|
            && (Commits(candidates, attempts, 0) <==> writes != [] && attempts[|writes| - 1].reply == Stored)
            && (forall i :: 0 <= i < |writes| ==> candidates[i] == Some(writes[i]))
            && (forall i :: 0 <= i < |writes| - 1 ==> attempts[i].reply == Conflict)
            && (Bounded(attempts) ==>
                  (forall j :: 0 <= j < |attempts| ==> candidates[j].Some? && attempts[j].reply == Conflict) ==>
                  |writes| == 16)
  {
    LoopFrom(candidates, attempts, 0);
    forall i | 0 <= i < |Writes(candidates, attempts, 0)|
      ensures candidates[i] == Some(Writes(candidates, attempts, 0)[i])
    {
      WritesAre(candidates, attempts, 0, i);
    }
  }

  lemma {:induction false} WritesAre(candidates: seq<Option<Write>>, attempts: seq<Attempt>, from: nat, i: nat)
    requires from <= |attempts| == |candidates| && i < |Writes(candidates, attempts, from)|
    ensures from + i < |attempts| && candidates[from + i] == Some(Writes(candidates, attempts, from)[i])
    decreases |attempts| - from
  {
    if i > 0 {
      WritesAre(candidates, attempts, from + 1, i - 1);
    }
  }

  lemma {:induction false} LoopFrom(candidates: seq<Option<Write>>, attempts: seq<Attempt>, from: nat)
    requires from <= |attempts| == |candidates|
    ensures var n := |Writes(candidates, attempts, from)|;
            && from + n <= |attempts|
            && (Commits(candidates, attempts, from) <==> n > 0 && attempts[from + n - 1].reply == Stored)
            && (forall i :: from <= i < from + n - 1 ==> attempts[i].reply == Conflict)
            && ((forall j :: from <= j < |attempts| ==> candidates[j].Some? && attempts[j].reply == Conflict) ==>
                  n == |attempts| - from)
    decreases |attempts| - from
  {
    if from < |attempts| && candidates[from].Some? && attempts[from].reply == Conflict {
      LoopFrom(candidates, attempts, from + 1);
    }
  }

  method MakeCandidate(digest: Digest, q: Request, read: Read) returns (r: Option<Write>)
    ensures r == CandidateOf(digest, q, read)
  {
    var index: Option<Deployments>;
    match read {
      case Absent => index := Some(map[]);
      case Unreadable => index := None;
      case Body(decoded) => index := ParseIndex(decoded);
    }
    if index.None? {
      return None;
    }
    var body := Mutate(digest, q, index.value);
    var checked := ParseIndex(Some(body));
    r := if checked.Some? then Some(Write(if read == Absent then None else index, body)) else None;
  }

  method MutateIndex(digest: Digest, q: Request, attempts: seq<Attempt>) returns (ok: bool, writes: seq<Write>)
    requires Bounded(attempts)
    ensures writes == Writes(Candidates(digest, q, attempts), attempts, 0)
    ensures ok <==> Commits(Candidates(digest, q, attempts), attempts, 0)
  {
    writes := [];
    ghost var candidates := Candidates(digest, q, attempts);
    for k := 0 to |attempts|
      invariant Writes(candidates, attempts, 0) == writes + Writes(candidates, attempts, k)
      invariant Commits(candidates, attempts, 0) <==> Commits(candidates, attempts, k)
    {
      var candidate := MakeCandidate(digest, q, attempts[k].read);
      assert candidates[k] == candidate;
      if candidate.None? {
        return false, writes;
      }
      WriteStep(writes, candidates, attempts, k);
      writes := writes + [candidate.value];
      if attempts[k].reply != Conflict {
        return attempts[k].reply == Stored, writes;
      }
    }
    ok := false;
  }

  // Stores the payloads in order; one that is already there is as good as stored.
  method StorePayloads(digest: Digest, q: Request, replies: seq<Reply>) returns (ok: bool, uploads: seq<Upload>)
    requires |replies| == |Uploads(digest, q)|
    ensures uploads <= Uploads(digest, q)
    ensures ok <==> forall i :: 0 <= i < |replies| ==> replies[i] != Failed
    ensures ok ==> uploads == Uploads(digest, q)
  {
    uploads := [];
    var all := Uploads(digest, q);
    for i := 0 to |all|
      invariant uploads == all[..i] && forall j :: 0 <= j < i ==> replies[j] != Failed
    {
      uploads := uploads + [all[i]];
      if replies[i] == Failed {
        return false, uploads;
      }
    }
    ok := true;
  }

  /** One deploy or delete: nothing is written for bad names, and the index only after every payload. */
  method Commit(digest: Digest, q: Request, replies: seq<Reply>, attempts: seq<Attempt>)
    returns (ok: bool, uploads: seq<Upload>, writes: seq<Write>)
    requires |replies| == |Uploads(digest, q)| && Bounded(attempts)
    ensures !Named(q) ==> !ok && uploads == [] && writes == []
    ensures uploads <= Uploads(digest, q)
    ensures var stored := Named(q) && forall i :: 0 <= i < |replies| ==> replies[i] != Failed;
            && (ok <==> stored && Commits(Candidates(digest, q, attempts), attempts, 0))
            && writes == (if stored then Writes(Candidates(digest, q, attempts), attempts, 0) else [])
            && (stored ==> uploads == Uploads(digest, q))
  {
    ok, uploads, writes := false, [], [];
    if !ValidID(q.nodeGroup) || !ValidID(q.name) {
      return;
    }
    var stored;
    stored, uploads := StorePayloads(digest, q, replies);
    if stored {
      ok, writes := MutateIndex(digest, q, attempts);
    }
  }

  // ---- What a mutation does to a valid index ----

  ghost predicate HexDigest(digest: Digest) {
    forall body :: DigestText(digest(body))
  }

  // Whether some other deployment already claims the same Service.
  predicate Taken(index: Deployments, key: string, d: Deployment) {
    exists k :: k in index && k != key && Clash(index[k], d)
  }

  lemma StoreValidExactly(index: Deployments, key: string, d: Deployment)
    requires ValidIndex(index)
    ensures ValidIndex(index[key := d]) <==> EntryOk(key, d) && !Taken(index, key, d)
  {
    var after := index[key := d];
    if EntryOk(key, d) && !Taken(index, key, d) {
      forall a, b | a in after && b in after && a != b
        ensures !Clash(after[a], after[b])
      {
        if a == key {
          assert !Clash(index[b], d);
        } else if b == key {
          assert !Clash(index[a], d);
        }
      }
    } else if Taken(index, key, d) {
      var k :| k in index && k != key && Clash(index[k], d);
      assert Clash(after[k], after[key]);
    } else {
      assert !EntryOk(key, after[key]);
    }
  }

  lemma ReferenceOk(digest: Digest, q: Request)
    requires HexDigest(digest) && Named(q) && q.Apply?
    ensures EntryOk(RequestKey(q), Reference(digest, q)) <==>
              (q.service.Some? ==> ValidNamespace(q.service.value.namespace) && ValidID(q.service.value.name))
  {
    var d := Reference(digest, q);
    DeploymentKeyRoundTrip(RequestKey(q), q.nodeGroup, q.name);
    PodObjectExactly(d.pod, q.nodeGroup);
    if q.service.Some? {
      var s := q.service.value;
      assert DigestText(digest(s.yaml));
      ServiceIdentityExactly(d.service, s.namespace, s.name);
      if ServiceIdentity(d.service).Some? {
        ServiceKeyParts(d.service, s.namespace, s.name, digest(s.yaml));
      }
    }
  }

  lemma SameMiddle(head: string, a: string, b: string, tail: string, other: string)
    requires head + (a + tail) == head + (b + other) && |tail| == |other|
    ensures a == b
  {
    var s, t := a + tail, b + other;
    assert s == (head + s)[|head|..] && t == (head + t)[|head|..];
    assert a == s[..|a|] && b == t[..|b|];
  }

  // A key built from any namespace and name that still parses had a valid namespace and name.
  lemma ServiceKeyParts(key: string, namespace: string, name: string, d: string)
    requires key == ServiceKey(namespace, name, d) && ServiceIdentity(key).Some? && DigestText(d)
    ensures ValidNamespace(namespace) && ValidID(name)
  {
    var r := ServiceIdentity(key).value;
    ServiceIdentityExactly(key, r.namespace, r.name);
    var e :| DigestText(e) && key == ServiceKey(r.namespace, r.name, e);
    SameKeyParts(namespace, name, d, r.namespace, r.name, e);
    JoinUnique(r.namespace, r.name, namespace, name, '/');
  }

  lemma SameKeyParts(namespace: string, name: string, d: string, otherNamespace: string, otherName: string, e: string)
    requires ServiceKey(namespace, name, d) == ServiceKey(otherNamespace, otherName, e) && |d| == |e|
    ensures namespace + "/" + name == otherNamespace + "/" + otherName
  {
    var a, b := namespace + "/" + name, otherNamespace + "/" + otherName;
    var tail, other := "/sha512/" + d + SUFFIX, "/sha512/" + e + SUFFIX;
    assert ServiceKey(namespace, name, d) == "services/" + (a + tail);
    assert ServiceKey(otherNamespace, otherName, e) == "services/" + (b + other);
    SameMiddle("services/", a, b, tail, other);
  }

  /** An apply on a valid index is refused exactly when its Service is malformed or another deployment claims it. */
  lemma MutationAcceptedExactly(digest: Digest, q: Request, index: Deployments)
    requires HexDigest(digest) && Named(q) && ValidIndex(index)
    ensures ValidIndex(Mutate(digest, q, index)) <==>
              q.Delete?
              || ((q.service.Some? ==> ValidNamespace(q.service.value.namespace) && ValidID(q.service.value.name))
                  && !Taken(index, RequestKey(q), Reference(digest, q)))
  {
    if q.Apply? {
      ReferenceOk(digest, q);
      StoreValidExactly(index, RequestKey(q), Reference(digest, q));
    }
  }
}
