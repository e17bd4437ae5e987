// The committed desired-state index: its content-addressed keys and the checks a parsed index must pass.
module Index {
  import opened Net
  import opened Wire

  // One deployment's references; an empty service means none.
  datatype Deployment = Deployment(pod: string, service: string)
  type Deployments = map<string, Deployment>
  datatype ServiceRef = ServiceRef(namespace: string, name: string, identity: string)

  // ---- Paths ----

  predicate SlashFree(s: string) {
    forall i :: 0 <= i < |s| ==> s[i] != '/'
  }

  function Split(s: string): (parts: seq<string>)
    ensures parts != [] && forall i :: 0 <= i < |parts| ==> SlashFree(parts[i])
  {
    if s == [] then [""]
    else
      var rest := Split(s[1..]);
      if s[0] == '/' then [""] + rest else [[s[0]] + rest[0]] + rest[1..]
  }

  function Join(parts: seq<string>): string
    requires parts != []
  {
    if |parts| == 1 then parts[0] else parts[0] + "/" + Join(parts[1..])
  }

  // Everything after the last slash.
  function Filename(s: string): string {
    if SlashFree(s) then s else Filename(s[1..])
  }

  lemma {:induction false} SplitPart(head: string, rest: string)
    requires SlashFree(head)
    ensures Split(head + "/" + rest) == [head] + Split(rest)
  {
    var s := head + "/" + rest;
    if head == [] {
      assert s[1..] == rest;
    } else {
      SplitPart(head[1..], rest);
      assert s[1..] == head[1..] + "/" + rest;
      assert [head[0]] + head[1..] == head;
    }
  }

  lemma {:induction false} SplitFree(s: string)
    requires SlashFree(s)
    ensures Split(s) == [s]
  {
    if s != [] {
      SplitFree(s[1..]);
      assert [s[0]] + s[1..] == s;
    }
  }

  lemma {:induction false} SplitJoin(parts: seq<string>)
    requires parts != [] && forall i :: 0 <= i < |parts| ==> SlashFree(parts[i])
    ensures Split(Join(parts)) == parts
  {
    if |parts| == 1 {
      SplitFree(parts[0]);
    } else {
      SplitJoin(parts[1..]);
      SplitPart(parts[0], Join(parts[1..]));
    }
  }

  lemma {:induction false} JoinSplit(s: string)
    ensures Join(Split(s)) == s
  {
    if s != [] {
      JoinSplit(s[1..]);
      var rest := Split(s[1..]);
      if s[0] == '/' {
        assert ([""] + rest)[1..] == rest;
      } else {
        var parts := [[s[0]] + rest[0]] + rest[1..];
        assert parts[1..] == rest[1..];
        assert [s[0]] + s[1..] == s;
      }
    }
  }

  lemma {:induction false} FilenameIsLast(s: string)
    ensures Filename(s) == Split(s)[|Split(s)| - 1]
  {
    if SlashFree(s) {
      SplitFree(s);
    } else {
      FilenameIsLast(s[1..]);
      JoinSplit(s[1..]);
      assert |Split(s[1..])| == 1 ==> SlashFree(s[1..]);
      assert s[0] == '/' || !SlashFree(s[1..]);
    }
  }

  // ---- Content addresses ----

  predicate Hex(c: char) { '0' <= c <= '9' || 'a' <= c <= 'f' }

  // Sixty-four bytes in lowercase hexadecimal.
  predicate DigestText(s: string) {
    |s| == 128 && forall i :: 0 <= i < |s| ==> Hex(s[i])
  }

  // Sixteen digits only: upper case is refused.
  lemma DigestDigits(s: string)
    ensures DigestText(s) <==> |s| == 128 && forall c :: c in s ==> '0' <= c <= '9' || 'a' <= c <= 'f'
  {
    if |s| == 128 && forall c :: c in s ==> '0' <= c <= '9' || 'a' <= c <= 'f' {
      assert forall i :: 0 <= i < |s| ==> s[i] in s;
    }
  }

  const SUFFIX := ".yaml"

  function ObjectDigest(key: string): Option<string> {
    var f := Filename(key);
    if |f| >= |SUFFIX| && f[|f| - |SUFFIX|..] == SUFFIX && DigestText(f[..|f| - |SUFFIX|])
    then Some(f[..|f| - |SUFFIX|]) else None
  }

  predicate Verify(digest: seq<Byte> -> string, key: string, body: seq<Byte>) {
    ObjectDigest(key) == Some(digest(body))
  }

  function PodParts(nodeGroup: string, digest: string): seq<string> {
    ["nodegroups", nodeGroup, "pods", "sha512", digest + SUFFIX]
  }

  function PodKey(nodeGroup: string, digest: string): string {
    "nodegroups/" + nodeGroup + "/pods/sha512/" + digest + SUFFIX
  }

  function ServiceParts(namespace: string, name: string, digest: string): seq<string> {
    ["services", namespace, name, "sha512", digest + SUFFIX]
  }

  function ServiceKey(namespace: string, name: string, digest: string): string {
    "services/" + namespace + "/" + name + "/sha512/" + digest + SUFFIX
  }

  predicate PodObject(key: string, nodeGroup: string) {
    var parts := Split(key);
    && |parts| == 5 && parts[0] == "nodegroups" && parts[1] == nodeGroup && parts[2] == "pods" && parts[3] == "sha512"
    && ObjectDigest(key).Some?
  }

  function ServiceIdentity(key: string): Option<ServiceRef> {
    var parts := Split(key);
    if |parts| == 5 && parts[0] == "services" && ValidNamespace(parts[1]) && ValidID(parts[2]) && parts[3] == "sha512"
       && ObjectDigest(key).Some?
    then Some(ServiceRef(parts[1], parts[2], parts[1] + "/" + parts[2])) else None
  }

  function DeploymentKey(nodeGroup: string, name: string): string { nodeGroup + "/" + name }

  function DeploymentIdentity(key: string): Option<(string, string)> {
    var parts := Split(key);
    if |parts| == 2 && ValidID(parts[0]) && ValidID(parts[1]) then Some((parts[0], parts[1])) else None
  }

  // ---- Keys and their parsers are inverse ----

  lemma JoinFive(a: string, b: string, c: string, d: string, e: string)
    ensures Join([a, b, c, d, e]) == a + "/" + (b + "/" + (c + "/" + (d + "/" + e)))
  {
    var p := [a, b, c, d, e];
    assert p[1..] == [b, c, d, e] && p[1..][1..] == [c, d, e] && p[1..][1..][1..] == [d, e]
           && p[1..][1..][1..][1..] == [e];
    assert Join([d, e]) == d + "/" + e by { assert [d, e][1..] == [e]; }
    assert Join([c, d, e]) == c + "/" + Join([d, e]) by { assert [c, d, e][1..] == [d, e]; }
    assert Join([b, c, d, e]) == b + "/" + Join([c, d, e]) by { assert [b, c, d, e][1..] == [c, d, e]; }
  }

  lemma PodKeyIsJoin(nodeGroup: string, digest: string)
    ensures PodKey(nodeGroup, digest) == Join(PodParts(nodeGroup, digest))
  {
    JoinFive("nodegroups", nodeGroup, "pods", "sha512", digest + SUFFIX);
    assert PodKey(nodeGroup, digest)
        == "nodegroups" + "/" + (nodeGroup + "/" + ("pods" + "/" + ("sha512" + "/" + (digest + SUFFIX))));
  }

  lemma ServiceKeyIsJoin(namespace: string, name: string, digest: string)
    ensures ServiceKey(namespace, name, digest) == Join(ServiceParts(namespace, name, digest))
  {
    JoinFive("services", namespace, name, "sha512", digest + SUFFIX);
    assert ServiceKey(namespace, name, digest)
        == "services" + "/" + (namespace + "/" + (name + "/" + ("sha512" + "/" + (digest + SUFFIX))));
  }

  lemma {:induction false} DigestFilename(parts: seq<string>, digest: string)
    requires |parts| == 5 && forall i :: 0 <= i < 4 ==> SlashFree(parts[i])
    requires DigestText(digest) && parts[4] == digest + SUFFIX
    ensures Split(Join(parts)) == parts && ObjectDigest(Join(parts)) == Some(digest)
  {
    assert SlashFree(parts[4]);
    SplitJoin(parts);
    FilenameIsLast(Join(parts));
    assert (digest + SUFFIX)[..|digest|] == digest && (digest + SUFFIX)[|digest|..] == SUFFIX;
  }

  // What a key with a digest ends in.
  lemma {:induction false} DigestLast(key: string)
    requires ObjectDigest(key).Some?
    ensures var parts := Split(key);
            parts[|parts| - 1] == ObjectDigest(key).value + SUFFIX && DigestText(ObjectDigest(key).value)
              && Join(parts) == key
  {
    FilenameIsLast(key);
    JoinSplit(key);
    var f := Filename(key);
    assert f == f[..|f| - |SUFFIX|] + f[|f| - |SUFFIX|..];
  }

  /** A Pod reference is accepted exactly when it is the content address of some digest under that NodeGroup. */
  lemma PodObjectExactly(key: string, nodeGroup: string)
    requires SlashFree(nodeGroup)
    ensures PodObject(key, nodeGroup) <==> exists d :: DigestText(d) && key == PodKey(nodeGroup, d)
  {
    if PodObject(key, nodeGroup) {
      DigestLast(key);
      var d := ObjectDigest(key).value;
      PodKeyIsJoin(nodeGroup, d);
      assert Split(key) == PodParts(nodeGroup, d);
    }
    forall d | DigestText(d) && key == PodKey(nodeGroup, d)
      ensures PodObject(key, nodeGroup)
    {
      PodKeyIsJoin(nodeGroup, d);
      DigestFilename(PodParts(nodeGroup, d), d);
    }
  }

  /** A Service reference parses to a namespace and name exactly when it is their content address for some digest. */
  lemma ServiceIdentityExactly(key: string, namespace: string, name: string)
    ensures (exists d :: DigestText(d) && key == ServiceKey(namespace, name, d)) && ValidNamespace(namespace)
            && ValidID(name)
       <==> ServiceIdentity(key) == Some(ServiceRef(namespace, name, namespace + "/" + name))
  {
    if ServiceIdentity(key) == Some(ServiceRef(namespace, name, namespace + "/" + name)) {
      DigestLast(key);
      var d := ObjectDigest(key).value;
      ServiceKeyIsJoin(namespace, name, d);
      assert Split(key) == ServiceParts(namespace, name, d);
    }
    if ValidNamespace(namespace) && ValidID(name) {
      forall d | DigestText(d) && key == ServiceKey(namespace, name, d)
        ensures ServiceIdentity(key) == Some(ServiceRef(namespace, name, namespace + "/" + name))
      {
        ServiceKeyIsJoin(namespace, name, d);
        DigestFilename(ServiceParts(namespace, name, d), d);
      }
    }
  }

  /** Deployment keys and identities are inverse, and nothing else parses. */
  lemma DeploymentKeyRoundTrip(key: string, nodeGroup: string, name: string)
    ensures DeploymentIdentity(key) == Some((nodeGroup, name))
       <==> key == DeploymentKey(nodeGroup, name) && ValidID(nodeGroup) && ValidID(name)
  {
    JoinSplit(key);
    if ValidID(nodeGroup) && ValidID(name) {
      SplitJoin([nodeGroup, name]);
      assert [nodeGroup, name][1..] == [name];
    }
    if DeploymentIdentity(key) == Some((nodeGroup, name)) {
      assert Split(key) == [nodeGroup, name];
      assert [nodeGroup, name][1..] == [name];
    }
  }

  // ---- Validation ----

  predicate EntryOk(key: string, d: Deployment) {
    && DeploymentIdentity(key).Some? && PodObject(d.pod, DeploymentIdentity(key).value.0)
    && (d.service != "" ==> ServiceIdentity(d.service).Some?)
  }

  predicate Clash(a: Deployment, b: Deployment) {
    && a.service != "" && b.service != ""
    && ServiceIdentity(a.service).Some? && ServiceIdentity(b.service).Some?
    && ServiceIdentity(a.service).value.identity == ServiceIdentity(b.service).value.identity
  }

  // Every entry is well formed and no two deployments claim one Service identity.
  predicate ValidAmong(index: Deployments, keys: set<string>)
    requires keys <= index.Keys
  {
    && (forall key :: key in keys ==> EntryOk(key, index[key]))
    && (forall a, b :: a in keys && b in keys && a != b ==> !Clash(index[a], index[b]))
  }

  predicate ValidIndex(index: Deployments) { ValidAmong(index, index.Keys) }

  ghost predicate Recorded(index: Deployments, keys: set<string>, services: set<string>)
    requires keys <= index.Keys
  {
    forall identity :: identity in services <==>
      exists key :: key in keys && index[key].service != "" && ServiceIdentity(index[key].service).Some?
                    && ServiceIdentity(index[key].service).value.identity == identity
  }

  // What the scan decides about one more entry.
  predicate Admits(key: string, d: Deployment, services: set<string>) {
    EntryOk(key, d) && (d.service != "" ==> ServiceIdentity(d.service).value.identity !in services)
  }

  function Claims(d: Deployment): set<string> {
    if d.service != "" && ServiceIdentity(d.service).Some? then {ServiceIdentity(d.service).value.identity} else {}
  }

  lemma AdmitsExactly(index: Deployments, done: set<string>, key: string, services: set<string>)
    requires done <= index.Keys && key in index && key !in done
    requires ValidAmong(index, done) && Recorded(index, done, services)
    ensures ValidAmong(index, done + {key}) <==> Admits(key, index[key], services)
  {
    if Admits(key, index[key], services) {
      assert forall a :: a in done ==> !Clash(index[a], index[key]) && !Clash(index[key], index[a]);
    } else if EntryOk(key, index[key]) {
      var a :| a in done && index[a].service != "" && ServiceIdentity(index[a].service).Some?
               && ServiceIdentity(index[a].service).value.identity
                    == ServiceIdentity(index[key].service).value.identity;
      assert Clash(index[a], index[key]);
    }
  }

  lemma RecordedStep(index: Deployments, done: set<string>, key: string, services: set<string>)
    requires done <= index.Keys && key in index && Recorded(index, done, services)
    ensures Recorded(index, done + {key}, services + Claims(index[key]))
  {
    forall identity | identity in services
      ensures exists k :: k in done + {key} && index[k].service != "" && ServiceIdentity(index[k].service).Some?
                          && ServiceIdentity(index[k].service).value.identity == identity
    {
      var k :| k in done && index[k].service != "" && ServiceIdentity(index[k].service).Some?
               && ServiceIdentity(index[k].service).value.identity == identity;
      assert k in done + {key};
    }
  }

  method CheckEntry(key: string, d: Deployment, services: set<string>) returns (ok: bool, now: set<string>)
    ensures ok <==> Admits(key, d, services)
    ensures ok ==> now == services + Claims(d)
  {
    now := services;
    var parsed := DeploymentIdentity(key);
    if parsed.None? || !PodObject(d.pod, parsed.value.0) {
      return false, now;
    }
    if d.service != "" {
      var service := ServiceIdentity(d.service);
      if service.None? || service.value.identity in services {
        return false, now;
      }
      now := now + {service.value.identity};
    }
    ok := true;
  }

  // The scan after some keys.
  ghost predicate Scanned(index: Deployments, done: set<string>, services: set<string>)
    requires done <= index.Keys
  {
    ValidAmong(index, done) && Recorded(index, done, services)
  }

  lemma ScanStep(index: Deployments, done: set<string>, key: string, services: set<string>)
    requires done <= index.Keys && key in index && key !in done && Scanned(index, done, services)
    ensures Admits(key, index[key], services) ==> Scanned(index, done + {key}, services + Claims(index[key]))
    ensures !Admits(key, index[key], services) ==> !ValidIndex(index)
  {
    AdmitsExactly(index, done, key, services);
    RecordedStep(index, done, key, services);
    FewerValid(index, done + {key});
  }

  // `decoded` is the JSON body, if it decodes to an object without duplicate or unknown keys.
  method ParseIndex(decoded: Option<Deployments>) returns (r: Option<Deployments>)
    ensures r == if decoded.Some? && ValidIndex(decoded.value) then decoded else None
  {
    if decoded.None? {
      return None;
    }
    var index := decoded.value;
    var rest, services: set<string> := index.Keys, {};
    ghost var done: set<string> := {};
    while rest != {}
      invariant rest <= index.Keys && done == index.Keys - rest
      invariant Scanned(index, done, services)
      decreases |rest|
    {
      var key :| key in rest;
      ScanStep(index, done, key, services);
      var ok, now := CheckEntry(key, index[key], services);
      if !ok {
        return None;
      }
      rest, services, done := rest - {key}, now, done + {key};
    }
    assert done == index.Keys;
    r := decoded;
  }

  lemma FewerValid(index: Deployments, keys: set<string>)
    requires keys <= index.Keys
    ensures ValidIndex(index) ==> ValidAmong(index, keys)
  {
  }

  // Two parsed Service references clash exactly when namespace and name agree.
  lemma IdentityTextUnique(a: string, b: string)
    requires ServiceIdentity(a).Some? && ServiceIdentity(b).Some?
    ensures ServiceIdentity(a).value.identity == ServiceIdentity(b).value.identity <==>
              ServiceIdentity(a).value.namespace == ServiceIdentity(b).value.namespace
              && ServiceIdentity(a).value.name == ServiceIdentity(b).value.name
  {
    var x, y := ServiceIdentity(a).value, ServiceIdentity(b).value;
    if x.identity == y.identity {
      JoinUnique(x.namespace, x.name, y.namespace, y.name, '/');
    }
  }
}
