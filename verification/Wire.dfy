// The coordination messages, the name and address syntax they are checked against, and the composite string keys.
module Wire {
  import opened Net
  import T = Tables

  datatype TargetPort = TargetPort(name: string, protocol: string, servicePort: nat, targetPort: nat)

  datatype Endpoint = Endpoint(service: string, namespace: string, nodeGroup: string, podUid: string, address: string,
                               ports: seq<TargetPort>)

  datatype Service = Service(name: string, namespace: string, nodeGroup: string, fqdn: string, vip: string,
                             ports: seq<TargetPort>, backends: seq<Endpoint>)

  datatype Hello = Hello(nodeId: string, cluster: string, nodeGroup: string, sessionId: string, configDigest: string,
                         services: seq<Service>, ipv6Prefix: string)

  datatype NodeState = NodeState(sessionId: string, sequence: nat, configDigest: string, endpoints: seq<Endpoint>)

  datatype Snapshot = Snapshot(generation: nat, revision: nat, leader: string, configDigest: string,
                               services: seq<Service>)

  type EightBytes = s: seq<Byte> | |s| == 8 witness seq(8, i => 0)

  datatype Prefix = Prefix(address: T.IP, bits: nat)

  // The parts of the platform the model leaves open: address syntax and digests. Every result holds for all of them.
  datatype Platform = Platform(cluster: string, address: string -> Option<T.IP>, prefix: string -> Option<Prefix>,
                               text: Address -> string, sum: string -> EightBytes, digest: string -> string)

  // Printing an IPv6 address and parsing it back gives the address.
  ghost predicate Faithful(p: Platform) {
    forall a: Address {:trigger p.text(a)} :: p.address(p.text(a)) == Some(T.IPv6(a))
  }

  // ---- Names ----

  predicate Lower(c: char) { 'a' <= c <= 'z' }
  predicate LowerDigit(c: char) { Lower(c) || '0' <= c <= '9' }
  predicate LowerDigitDash(c: char) { LowerDigit(c) || c == '-' }

  // ^[a-z]([a-z0-9-]{0,30}[a-z0-9])?$
  predicate ValidID(s: string) {
    && 1 <= |s| <= 32 && Lower(s[0]) && LowerDigit(s[|s| - 1])
    && forall i :: 0 <= i < |s| ==> LowerDigitDash(s[i])
  }

  // ^[a-z0-9]([a-z0-9-]{0,61}[a-z0-9])?$
  predicate ValidNamespace(s: string) {
    && 1 <= |s| <= 63 && LowerDigit(s[0]) && LowerDigit(s[|s| - 1])
    && forall i :: 0 <= i < |s| ==> LowerDigitDash(s[i])
  }

  // ---- Addresses ----

  // Neither unspecified, loopback, multicast nor link-local, where an IPv4-mapped address counts as its IPv4 address.
  predicate GlobalUnicast(a: T.IP) {
    a.IPv6? && var b := a.bytes;
    && !(forall i :: 0 <= i < 16 ==> b[i] == 0)
    && !(b[15] == 1 && forall i :: 0 <= i < 15 ==> b[i] == 0)
    && b[0] != 0xff && !(b[0] == 0xfe && 0x80 <= b[1] < 0xc0)
    && !(T.Mapped(b) && (b[12] == 127 || 224 <= b[12] < 240 || (b[12] == 169 && b[13] == 254)))
  }

  // A canonical global-unicast IPv6 /80.
  predicate ValidDelegatedPrefix(x: Prefix) {
    && x.address.IPv6? && !T.Mapped(x.address.bytes) && GlobalUnicast(x.address) && x.bits == 80
    && forall i :: 10 <= i < 16 ==> x.address.bytes[i] == 0
  }

  // Membership in an IPv6 /80.
  predicate Contains(x: Prefix, a: T.IP) {
    x.address.IPv6? && a.IPv6? && a.bytes[..10] == x.address.bytes[..10]
  }

  // An address inside a delegated prefix is never IPv4-mapped.
  lemma DelegatedIsPlain(x: Prefix, a: T.IP)
    requires ValidDelegatedPrefix(x) && Contains(x, a)
    ensures T.Plain(a)
  {
    if T.Mapped(a.bytes) {
      var b := x.address.bytes;
      assert b[..10] == [0, 0, 0, 0, 0, 0, 0, 0, 0, 0];
      assert forall i :: 0 <= i < 10 ==> b[i] == b[..10][i] == 0;
      assert false;
    }
  }

  function DeriveVIP(p: Platform, namespace: string, name: string): Address {
    [0xfd, 0x50, 0x6f, 0x64, 0x6d, 0x69, 0, 0] + p.sum(p.cluster + "\0" + namespace + "\0" + name)
  }

  // A derived VIP lies in fd50:6f64:6d69::/64, so it is never IPv4-mapped.
  lemma VipIsPlain(p: Platform, namespace: string, name: string)
    ensures T.Plain(T.IPv6(DeriveVIP(p, namespace, name)))
    ensures DeriveVIP(p, namespace, name)[..8] == [253, 80, 111, 100, 109, 105, 0, 0]
  {
    var a := DeriveVIP(p, namespace, name);
    assert a[..10][0] == 0xfd;
  }

  // ---- Composite keys ----

  predicate NoNul(s: string) {
    forall i :: 0 <= i < |s| ==> s[i] != '\0'
  }

  function Identity(namespace: string, name: string): string {
    namespace + "\0" + name
  }

  function FQDN(name: string, namespace: string): string {
    name + "." + namespace + ".svc.cluster.local"
  }

  // Two strings joined by a mark neither contains split back uniquely, whatever the other pair is.
  lemma JoinUnique(a: string, b: string, c: string, d: string, mark: char)
    requires a + [mark] + b == c + [mark] + d
    requires forall i :: 0 <= i < |a| ==> a[i] != mark
    requires forall i :: 0 <= i < |b| ==> b[i] != mark
    ensures a == c && b == d
  {
    var s, t := a + [mark] + b, c + [mark] + d;
    assert t[|c|] == mark && s[|c|] == mark;
    assert forall i :: 0 <= i < |a| ==> s[i] == a[i] != mark;
    assert forall i :: |a| < i < |s| ==> s[i] == b[i - |a| - 1] != mark;
    assert |c| == |a|;
    assert s[..|a|] == a && t[..|c|] == c;
    assert s[|a| + 1..] == b && t[|c| + 1..] == d;
  }

  lemma IdentityUnique(namespace: string, name: string, otherNamespace: string, otherName: string)
    requires ValidNamespace(namespace) && ValidID(name)
    requires Identity(namespace, name) == Identity(otherNamespace, otherName)
    ensures namespace == otherNamespace && name == otherName
  {
    JoinUnique(namespace, name, otherNamespace, otherName, '\0');
  }

  // A fully qualified name determines name and namespace, as neither contains a dot.
  lemma FQDNUnique(name: string, namespace: string, otherName: string, otherNamespace: string)
    requires ValidID(name) && ValidNamespace(namespace) && ValidID(otherName) && ValidNamespace(otherNamespace)
    requires FQDN(name, namespace) == FQDN(otherName, otherNamespace)
    ensures name == otherName && namespace == otherNamespace
  {
    var suffix := ".svc.cluster.local";
    var a, b := name + "." + namespace, otherName + "." + otherNamespace;
    assert a + suffix == b + suffix;
    assert |a| == |b|;
    assert a == (a + suffix)[..|a|] && b == (b + suffix)[..|b|];
    JoinUnique(name, namespace, otherName, otherNamespace, '.');
  }

  function Digit(d: nat): char
    requires d < 10
  {
    ('0' as int + d) as char
  }

  function Decimal(n: nat): string {
    if n < 10 then [Digit(n)] else Decimal(n / 10) + [Digit(n % 10)]
  }

  function Value(s: string): int {
    if s == [] then 0 else Value(s[..|s| - 1]) * 10 + (s[|s| - 1] as int - '0' as int)
  }

  lemma {:induction false} DecimalRoundTrip(n: nat)
    ensures Value(Decimal(n)) == n && NoNul(Decimal(n))
  {
    if n < 10 {
      assert [Digit(n)][..0] == [];
    } else {
      DecimalRoundTrip(n / 10);
      var s := Decimal(n);
      assert s[..|s| - 1] == Decimal(n / 10);
    }
  }

  // The key a port is compared under.
  function PortKey(t: TargetPort): string {
    t.name + "\0" + (t.protocol + "\0" + (Decimal(t.servicePort) + "\0" + Decimal(t.targetPort)))
  }

  // Number of NUL characters.
  function Nuls(s: string): nat {
    if s == [] then 0 else Nuls(s[1..]) + if s[0] == '\0' then 1 else 0
  }

  lemma {:induction false} NulsConcat(a: string, b: string)
    ensures Nuls(a + b) == Nuls(a) + Nuls(b)
  {
    if a == [] {
      assert a + b == b;
    } else {
      NulsConcat(a[1..], b);
      assert (a + b)[1..] == a[1..] + b;
    }
  }

  lemma {:induction false} NoNulCount(s: string)
    ensures NoNul(s) <==> Nuls(s) == 0
  {
    if s != [] {
      NoNulCount(s[1..]);
      assert s == [s[0]] + s[1..];
      assert forall i :: 0 <= i < |s| - 1 ==> s[1..][i] == s[i + 1];
      assert forall i :: 1 <= i < |s| ==> s[i] == s[1..][i - 1];
    }
  }

  lemma PortKeyNuls(t: TargetPort)
    ensures Nuls(PortKey(t)) == Nuls(t.name) + Nuls(t.protocol) + 3
  {
    var sp, tp := Decimal(t.servicePort), Decimal(t.targetPort);
    DecimalRoundTrip(t.servicePort);
    DecimalRoundTrip(t.targetPort);
    NoNulCount(sp);
    NoNulCount(tp);
    assert Nuls("\0") == 1 by { assert "\0"[1..] == ""; }
    var tail := sp + "\0" + tp;
    NulsConcat(sp + "\0", tp);
    NulsConcat(sp, "\0");
    NulsConcat(t.protocol + "\0", tail);
    NulsConcat(t.protocol, "\0");
    NulsConcat(t.name + "\0", t.protocol + "\0" + tail);
    NulsConcat(t.name, "\0");
  }

  // When neither the name nor the protocol of one side contains NUL, equal keys mean equal ports.
  lemma PortKeyUnique(t: TargetPort, u: TargetPort)
    requires PortKey(t) == PortKey(u) && NoNul(t.name) && NoNul(t.protocol)
    ensures t == u
  {
    PortKeyNuls(t);
    PortKeyNuls(u);
    NoNulCount(t.name);
    NoNulCount(t.protocol);
    NoNulCount(u.name);
    NoNulCount(u.protocol);
    DecimalRoundTrip(t.servicePort);
    DecimalRoundTrip(t.targetPort);
    DecimalRoundTrip(u.servicePort);
    DecimalRoundTrip(u.targetPort);
    HeadUnique(t.name, t.protocol + "\0" + (Decimal(t.servicePort) + "\0" + Decimal(t.targetPort)),
               u.name, u.protocol + "\0" + (Decimal(u.servicePort) + "\0" + Decimal(u.targetPort)));
    HeadUnique(t.protocol, Decimal(t.servicePort) + "\0" + Decimal(t.targetPort),
               u.protocol, Decimal(u.servicePort) + "\0" + Decimal(u.targetPort));
    HeadUnique(Decimal(t.servicePort), Decimal(t.targetPort), Decimal(u.servicePort), Decimal(u.targetPort));
  }

  lemma HeadUnique(a: string, b: string, c: string, d: string)
    requires a + "\0" + b == c + "\0" + d && NoNul(a) && NoNul(c)
    ensures a == c && b == d
  {
    var s, t := a + "\0" + b, c + "\0" + d;
    assert s[|a|] == '\0' && t[|c|] == '\0';
    assert forall i :: 0 <= i < |a| ==> s[i] == a[i] != '\0';
    assert forall i :: 0 <= i < |c| ==> t[i] == c[i] != '\0';
    assert |a| == |c|;
    assert s[..|a|] == a && t[..|c|] == c && s[|a| + 1..] == b && t[|c| + 1..] == d;
  }

  lemma TailUnique(a: string, b: string, c: string, d: string)
    requires a + "\0" + b == c + "\0" + d && NoNul(b) && NoNul(d)
    ensures a == c && b == d
  {
    var s, t := a + "\0" + b, c + "\0" + d;
    assert s[|a|] == '\0' && t[|c|] == '\0';
    assert forall i :: |a| < i < |s| ==> s[i] == b[i - |a| - 1] != '\0';
    assert forall i :: |c| < i < |t| ==> t[i] == d[i - |c| - 1] != '\0';
    assert |a| == |c|;
    assert s[..|a|] == a && t[..|c|] == c && s[|a| + 1..] == b && t[|c| + 1..] == d;
  }

  // With NUL-free protocols on both sides the key reads back from its end, whatever the names are.
  lemma PortKeyReadsBack(t: TargetPort, u: TargetPort)
    requires PortKey(t) == PortKey(u) && NoNul(t.protocol) && NoNul(u.protocol)
    ensures t == u
  {
    DecimalRoundTrip(t.servicePort);
    DecimalRoundTrip(t.targetPort);
    DecimalRoundTrip(u.servicePort);
    DecimalRoundTrip(u.targetPort);
    var a, b := t.name + "\0" + t.protocol, u.name + "\0" + u.protocol;
    var c, d := a + "\0" + Decimal(t.servicePort), b + "\0" + Decimal(u.servicePort);
    assert PortKey(t) == c + "\0" + Decimal(t.targetPort) && PortKey(u) == d + "\0" + Decimal(u.targetPort);
    TailUnique(c, Decimal(t.targetPort), d, Decimal(u.targetPort));
    TailUnique(a, Decimal(t.servicePort), b, Decimal(u.servicePort));
    TailUnique(t.name, t.protocol, u.name, u.protocol);
  }
}
