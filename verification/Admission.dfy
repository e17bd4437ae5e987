// What the leader admits, said about the messages themselves: ports by number and protocol, endpoints by the very ports
// they offer, and a cluster that is admitted.
module Admission {
  import opened Net
  import opened Sorting
  import opened Wire
  import opened Contracts
  import A = ApplyProperties
  import T = Tables

  // ---- Ports ----

  lemma ListenKeyExactly(a: TargetPort, b: TargetPort)
    requires |a.protocol| == |b.protocol|
    ensures ListenKey(a) == ListenKey(b) <==> a.protocol == b.protocol && a.servicePort == b.servicePort
  {
    var x, y := ListenKey(a), ListenKey(b);
    var n := |a.protocol|;
    assert x[..n] == a.protocol && y[..n] == b.protocol;
    assert x[n + 1..] == Decimal(a.servicePort) && y[n + 1..] == Decimal(b.servicePort);
    DecimalRoundTrip(a.servicePort);
    DecimalRoundTrip(b.servicePort);
  }

  predicate Numbers(t: TargetPort) {
    && 1 <= t.servicePort <= 65535 && 1 <= t.targetPort <= 65535
    && (t.protocol == "TCP" || t.protocol == "UDP")
  }

  /** Ports are admitted if and only if every number is from 1 to 65535, every protocol is TCP or UDP, and no two listen
      on one number of one protocol. */
  lemma PortsExactly(ports: seq<TargetPort>)
    ensures PortsOk(ports) <==>
              && (forall t :: t in ports ==> Numbers(t))
              && forall i, j :: 0 <= i < j < |ports| ==>
                   ports[i].protocol != ports[j].protocol || ports[i].servicePort != ports[j].servicePort
  {
    if PortsOk(ports) {
      forall t | t in ports
        ensures Numbers(t)
      {
        var i :| 0 <= i < |ports| && ports[i] == t;
        assert PortOk(ports[i]);
      }
    }
    if forall t :: t in ports ==> Numbers(t) {
      forall i | 0 <= i < |ports|
        ensures PortOk(ports[i])
      {
        assert ports[i] in ports;
      }
      forall i, j | 0 <= i < j < |ports|
        ensures ListenKey(ports[i]) == ListenKey(ports[j]) <==>
                  ports[i].protocol == ports[j].protocol && ports[i].servicePort == ports[j].servicePort
      {
        assert Numbers(ports[i]) && Numbers(ports[j]);
        ListenKeyExactly(ports[i], ports[j]);
      }
    }
  }

  // ---- Endpoints ----

  lemma PortsDistinct(ports: seq<TargetPort>)
    requires PortsOk(ports)
    ensures Distinct(ports)
  {
  }

  lemma DistinctFromKeys(ports: seq<TargetPort>)
    requires KeysDistinct(ports)
    ensures Distinct(ports)
  {
    forall i, j | 0 <= i < j < |ports|
      ensures ports[i] != ports[j]
    {
      assert Map(ports, PortKey)[i] != Map(ports, PortKey)[j];
    }
  }

  lemma AgreedIsOffered(ports: seq<TargetPort>, offered: seq<TargetPort>)
    requires PortsOk(ports) && A.NulFree(ports) && PortsAgree(ports, offered)
    ensures Distinct(offered) && |offered| == |ports| && forall t :: t in offered ==> t in ports
  {
    forall t | t in offered
      ensures t in ports
    {
      var j :| 0 <= j < |offered| && offered[j] == t;
      A.OfferedIsExpected(ports, offered, j);
    }
    DistinctFromKeys(offered);
  }

  lemma OfferedIsAgreed(ports: seq<TargetPort>, offered: seq<TargetPort>)
    requires PortsOk(ports) && A.NulFree(ports) && multiset(offered) == multiset(ports)
    ensures PortsAgree(ports, offered)
  {
    assert |multiset(offered)| == |multiset(ports)|;
    forall i | 0 <= i < |offered|
      ensures PortKey(offered[i]) in KeysOf(ports)
    {
      assert offered[i] in multiset(ports);
      var k :| 0 <= k < |ports| && ports[k] == offered[i];
    }
    KeysPermuted(ports, offered);
  }

  lemma KeysPermuted(ports: seq<TargetPort>, offered: seq<TargetPort>)
    requires PortsOk(ports) && multiset(offered) == multiset(ports)
    ensures KeysDistinct(offered)
  {
    A.ContractKeysDistinct(ports);
    MapPermuted(offered, ports, PortKey);
    DistinctPermuted(Map(offered, PortKey), Map(ports, PortKey));
  }

  // Two sequences without repetition, equally long, one within the other.
  lemma SameWhenCovered(a: seq<TargetPort>, b: seq<TargetPort>)
    requires Distinct(a) && Distinct(b) && |a| == |b| && forall t :: t in a ==> t in b
    ensures multiset(a) == multiset(b)
  {
    var x, y := set t | t in a, set t | t in b;
    DistinctSize(a);
    DistinctSize(b);
    assert y == x + (y - x);
    assert forall t :: t in b <==> t in y;
    SameElements(a, b);
  }

  lemma {:induction false} DistinctSize(a: seq<TargetPort>)
    requires Distinct(a)
    ensures |set t | t in a| == |a|
  {
    if a != [] {
      var n := |a| - 1;
      DistinctSize(a[..n]);
      assert a == a[..n] + [a[n]];
      assert (set t | t in a) == (set t | t in a[..n]) + {a[n]};
    }
  }

  /** With names free of NUL, an endpoint's ports are admitted for a Service if and only if they are the Service's own
      ports, in any order. */
  lemma OfferedPortsExactly(ports: seq<TargetPort>, offered: seq<TargetPort>)
    requires PortsOk(ports) && A.NulFree(ports)
    ensures PortsAgree(ports, offered) <==> multiset(offered) == multiset(ports)
  {
    PortsDistinct(ports);
    if PortsAgree(ports, offered) {
      AgreedIsOffered(ports, offered);
      SameWhenCovered(offered, ports);
    }
    if multiset(offered) == multiset(ports) {
      OfferedIsAgreed(ports, offered);
    }
  }

  /** With NUL-free port names, an endpoint is admitted under a contract if and only if it has the NodeGroup, a pod, a
      global address, and exactly the ports of a Service of the contract with its namespace and name. */
  lemma EndpointExactly(p: Platform, nodeGroup: string, contract: seq<Service>, e: Endpoint)
    requires ServicesOk(p, nodeGroup, contract) && forall s :: s in contract ==> A.NulFree(s.ports)
    ensures EndpointOk(p, nodeGroup, contract, e) <==>
              && e.nodeGroup == nodeGroup && e.podUid != ""
              && p.address(e.address).Some? && GlobalUnicast(p.address(e.address).value)
              && exists s :: s in contract && s.namespace == e.namespace && s.name == e.service
                             && multiset(e.ports) == multiset(s.ports)
  {
    var found := Lookup(contract, Identity(e.namespace, e.service));
    if found.Some? {
      var i :| 0 <= i < |contract| && contract[i] == found.value;
      OfferedPortsExactly(found.value.ports, e.ports);
      LookupExact(p, nodeGroup, contract, e.namespace, e.service, found.value);
    }
    forall s | s in contract && s.namespace == e.namespace && s.name == e.service
      ensures found == Some(s)
    {
      assert ServiceId(s) == Identity(e.namespace, e.service);
      LookupExact(p, nodeGroup, contract, e.namespace, e.service, s);
    }
  }

  /** Without NULs two endpoints clash if and only if namespace, Service, pod and address all agree. */
  lemma EndpointIdExactly(a: Endpoint, b: Endpoint)
    requires NoNul(a.namespace) && NoNul(a.service) && NoNul(a.podUid)
    requires NoNul(b.namespace) && NoNul(b.service) && NoNul(b.podUid)
    ensures EndpointId(a) == EndpointId(b) <==>
              a.namespace == b.namespace && a.service == b.service && a.podUid == b.podUid && a.address == b.address
  {
    if EndpointId(a) == EndpointId(b) {
      var s, t := a.service + "\0" + (a.podUid + "\0" + a.address), b.service + "\0" + (b.podUid + "\0" + b.address);
      assert EndpointId(a) == a.namespace + "\0" + s && EndpointId(b) == b.namespace + "\0" + t;
      HeadUnique(a.namespace, s, b.namespace, t);
      HeadUnique(a.service, a.podUid + "\0" + a.address, b.service, b.podUid + "\0" + b.address);
      HeadUnique(a.podUid, a.address, b.podUid, b.address);
    }
  }

  // ---- An admitted cluster ----

  const DIGEST: string := seq(128, i => 'a')
  const HTTP := TargetPort("http", "TCP", 80, 8080)
  const DNS := TargetPort("dns", "UDP", 65535, 1)

  function Web(p: Platform): Service {
    Service("web", "default", "front", "web.default.svc.cluster.local", p.text(DeriveVIP(p, "default", "web")),
            [HTTP, DNS], [])
  }

  lemma NamesValid()
    ensures ValidID("front") && ValidID("web") && ValidNamespace("default")
  {
  }

  lemma WebPorts()
    ensures PortsOk([HTTP, DNS]) && A.NulFree([HTTP, DNS])
  {
    PortsExactly([HTTP, DNS]);
    assert HTTP.protocol[0] != DNS.protocol[0];
  }

  /** A contract of one Service with a TCP and a UDP port, at both ends of the number range, is admitted, and a state of
      one endpoint with those ports in the other order is too. */
  lemma ClusterIsAdmitted(p: Platform, address: string, session: string, sequence: nat)
    requires p.address(address).Some? && GlobalUnicast(p.address(address).value)
    ensures ContractOk(p, "front", DIGEST, [Web(p)])
    ensures NodeStateOk(p, "front", [Web(p)],
                        NodeState(session, sequence, DIGEST,
                                  [Endpoint("web", "default", "front", "pod", address, [DNS, HTTP])]))
  {
    WebIsAdmitted(p);
    var e := Endpoint("web", "default", "front", "pod", address, [DNS, HTTP]);
    assert Web(p) in [Web(p)] && multiset([DNS, HTTP]) == multiset([HTTP, DNS]);
    EndpointExactly(p, "front", [Web(p)], e);
  }

  lemma WebIsAdmitted(p: Platform)
    ensures ServicesOk(p, "front", [Web(p)]) && ContractOk(p, "front", DIGEST, [Web(p)])
    ensures forall s :: s in [Web(p)] ==> A.NulFree(s.ports)
  {
    WebPorts();
    WebService(p);
    OneIsContract(p, "front", Web(p));
  }

  lemma WebService(p: Platform)
    ensures ServiceOk(p, "front", Web(p)) && ValidID("front")
  {
    NamesValid();
    WebPorts();
    assert FQDN("web", "default") == "web.default.svc.cluster.local";
  }

  lemma OneIsContract(p: Platform, nodeGroup: string, s: Service)
    requires ServiceOk(p, nodeGroup, s) && ValidID(nodeGroup)
    ensures ServicesOk(p, nodeGroup, [s]) && ContractOk(p, nodeGroup, DIGEST, [s])
  {
  }

  /** No more than 10000 Services or endpoints, and no digest but one of 128 hexadecimal digits, are admitted. */
  lemma Bounds(p: Platform, nodeGroup: string, digest: string, services: seq<Service>, state: NodeState)
    ensures ContractOk(p, nodeGroup, digest, services) ==>
              && |services| <= 10000 && |digest| == 128
              && forall c :: c in digest ==> '0' <= c <= '9' || 'a' <= c <= 'f' || 'A' <= c <= 'F'
    ensures NodeStateOk(p, nodeGroup, services, state) ==> |state.endpoints| <= 10000
  {
  }

  // ---- Names and addresses ----

  // One character of a name, and whether it may end one.
  predicate NameChar(c: char, ends: bool) {
    'a' <= c <= 'z' || '0' <= c <= '9' || (c == '-' && !ends)
  }

  /** A namespace is one letter or digit, or two of them around at most 61 letters, digits and dashes; an identifier is
      such a name of at most 32 characters that begins with a letter. */
  lemma NamesExactly(s: string)
    ensures ValidNamespace(s) <==>
              || (|s| == 1 && NameChar(s[0], true))
              || (|s| >= 2 && NameChar(s[0], true) && NameChar(s[|s| - 1], true)
                  && |s[1..|s| - 1]| <= 61 && forall c :: c in s[1..|s| - 1] ==> NameChar(c, false))
    ensures ValidID(s) <==> ValidNamespace(s) && |s| <= 32 && 'a' <= s[0] <= 'z'
  {
    if ValidNamespace(s) && |s| >= 2 {
      forall c | c in s[1..|s| - 1]
        ensures NameChar(c, false)
      {
        var i :| 0 <= i < |s| - 2 && s[1..|s| - 1][i] == c;
        assert LowerDigitDash(s[i + 1]);
      }
    }
    if |s| >= 2 && forall c :: c in s[1..|s| - 1] ==> NameChar(c, false) {
      forall i | 1 <= i < |s| - 1
        ensures LowerDigitDash(s[i])
      {
        var c := s[1..|s| - 1][i - 1];
        assert c in s[1..|s| - 1] && NameChar(c, false);
      }
    }
  }

  /** A delegated prefix is a /80 whose last six bytes are zero and whose first ten are neither all zero, multicast nor
      link-local: the tests for loopback and IPv4-mapped addresses decide nothing more. */
  lemma DelegatedExactly(x: Prefix)
    ensures ValidDelegatedPrefix(x) <==>
              && x.bits == 80 && x.address.IPv6? && x.address.bytes[10..] == [0, 0, 0, 0, 0, 0]
              && x.address.bytes[..10] != [0, 0, 0, 0, 0, 0, 0, 0, 0, 0]
              && x.address.bytes[0] != 255 && !(x.address.bytes[0] == 254 && 128 <= x.address.bytes[1] <= 191)
  {
    if x.address.IPv6? {
      var b := x.address.bytes;
      assert forall i :: 10 <= i < 16 ==> b[i] == b[10..][i - 10];
      assert forall i :: 0 <= i < 10 ==> b[i] == b[..10][i];
      assert (forall i :: 0 <= i < 10 ==> b[i] == 0) <==> b[..10] == [0, 0, 0, 0, 0, 0, 0, 0, 0, 0];
      assert (forall i :: 10 <= i < 16 ==> b[i] == 0) <==> b[10..] == [0, 0, 0, 0, 0, 0];
    }
  }

  /** An address is global exactly outside ::, ::1, ff00::/8, fe80::/10 and the IPv4-mapped forms of 127.0.0.0/8,
      224.0.0.0/4 and 169.254.0.0/16. */
  lemma GlobalExactly(a: Address)
    ensures GlobalUnicast(T.IPv6(a)) <==>
              && a[0] != 255 && !(a[0] == 254 && 128 <= a[1] <= 191)
              && (a[..15] == [0, 0, 0, 0, 0, 0, 0, 0, 0, 0, 0, 0, 0, 0, 0] ==> a[15] > 1)
              && (a[..12] == [0, 0, 0, 0, 0, 0, 0, 0, 0, 0, 255, 255] ==>
                    !(a[12] == 127 || 224 <= a[12] <= 239 || (a[12] == 169 && a[13] == 254)))
    ensures !GlobalUnicast(T.NotIPv6)
  {
    assert a[..12] == a[..10] + [a[10], a[11]];
    assert T.Mapped(a) <==> a[..12] == [0, 0, 0, 0, 0, 0, 0, 0, 0, 0, 255, 255] by {
      assert a[..12][..10] == a[..10] && a[..12][10] == a[10] && a[..12][11] == a[11];
    }
    assert forall i :: 0 <= i < 15 ==> a[i] == a[..15][i];
    assert (forall i :: 0 <= i < 15 ==> a[i] == 0) <==> a[..15] == [0, 0, 0, 0, 0, 0, 0, 0, 0, 0, 0, 0, 0, 0, 0];
  }
}
