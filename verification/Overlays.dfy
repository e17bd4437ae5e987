// Which Services a node ends up with: the exact membership of the local overlay and of the choice before application,
// and what an acquisition, a stale withdrawal and a local change therefore keep.
module Overlays {
  import opened Net
  import opened Sorting
  import opened Wire
  import opened Contracts
  import opened Merge
  import opened MergeProperties
  import opened NodeApply
  import opened Registry
  import opened Coordination
  import A = ApplyProperties

  predicate ClaimedBy(local: seq<Service>, s: Service) {
    exists x :: x in local && ServiceId(x) == ServiceId(s)
  }

  // ---- The overlay ----

  lemma {:induction false} RemoteMembers(services: seq<Service>, nodeGroup: string, local: seq<Service>, s: Service)
    ensures s in Remote(services, nodeGroup, local) <==>
              s in services && s.nodeGroup != nodeGroup && !ClaimedBy(local, s)
  {
    if services != [] {
      var front, last := services[..|services| - 1], services[|services| - 1];
      assert services == front + [last];
      RemoteMembers(front, nodeGroup, local, s);
      if ClaimedBy(local, last) {
        var x :| x in local && ServiceId(x) == ServiceId(last);
        var i :| 0 <= i < |local| && local[i] == x;
      }
    }
  }

  /** The overlay has exactly the local contract and, as they were, the Services of other NodeGroups whose identity the
      local contract does not claim. */
  lemma OverlayExactly(services: seq<Service>, nodeGroup: string, local: seq<Service>, s: Service)
    ensures s in Overlay(services, nodeGroup, local) <==>
              s in local || (s in services && s.nodeGroup != nodeGroup && !ClaimedBy(local, s))
  {
    RemoteMembers(services, nodeGroup, local, s);
    var all := Remote(services, nodeGroup, local) + local;
    assert s in all <==> s in multiset(all);
    assert s in Sort(all, ServiceLess) <==> s in multiset(Sort(all, ServiceLess));
  }

  /** A new generation keeps every identity: exactly the local contract, and the Services of other NodeGroups that the
      local contract does not claim, without their backends. */
  lemma AcquisitionKeepsIdentities(nodeId: string, nodeGroup: string, read: Option<Snapshot>, local: seq<Service>,
                                   s: Service)
    ensures var before := if read.None? then [] else read.value.services;
            s in AcquireCandidate(nodeId, nodeGroup, read, local).services <==>
              || s in local
              || (s.nodeGroup != nodeGroup && !ClaimedBy(local, s)
                  && exists x :: x in before && s == x.(backends := []))
  {
    var before := if read.None? then [] else read.value.services;
    StrippedMembers(before, s);
    OverlayExactly(Stripped(before), nodeGroup, local, s);
    assert Stripped([]) == [];
  }

  lemma StrippedMembers(services: seq<Service>, s: Service)
    ensures s in Stripped(services) <==> exists x :: x in services && s == x.(backends := [])
  {
    if x :| x in services && s == x.(backends := []) {
      var i :| 0 <= i < |services| && services[i] == x;
      assert Stripped(services)[i] == s;
    }
  }

  // ---- The choice ----

  // The snapshot's own version of a desired local Service.
  predicate Met(services: seq<Service>, nodeGroup: string, x: Service) {
    exists item :: item in services && item.nodeGroup == nodeGroup && item.(backends := []) == x
  }

  // What of the snapshot is kept beside a contract.
  predicate Keeps(nodeGroup: string, wanted: map<string, Service>, x: Service) {
    if x.nodeGroup == nodeGroup then ServiceId(x) in wanted && wanted[ServiceId(x)] == x.(backends := [])
    else ServiceId(x) !in wanted
  }

  ghost predicate KeptExactly(services: seq<Service>, nodeGroup: string, wanted: map<string, Service>,
                              kept: seq<Service>) {
    forall x :: x in kept <==> x in services && Keeps(nodeGroup, wanted, x)
  }

  ghost predicate RestExactly(services: seq<Service>, nodeGroup: string, wanted: map<string, Service>,
                              rest: map<string, Service>) {
    && (forall id :: id in rest <==> id in wanted && !Met(services, nodeGroup, wanted[id]))
    && (forall id :: id in rest ==> rest[id] == wanted[id])
  }

  ghost predicate SelectedExactly(services: seq<Service>, nodeGroup: string, wanted: map<string, Service>,
                                  s: Selection) {
    KeptExactly(services, nodeGroup, wanted, s.kept) && RestExactly(services, nodeGroup, wanted, s.rest)
  }

  lemma {:induction false} SelectExactly(services: seq<Service>, nodeGroup: string, wanted: map<string, Service>)
    requires Distinct(Map(services, ServiceId))
    requires forall id :: id in wanted ==> ServiceId(wanted[id]) == id
    ensures SelectedExactly(services, nodeGroup, wanted, Select(services, nodeGroup, wanted))
  {
    if services != [] {
      var front, last := services[..|services| - 1], services[|services| - 1];
      assert services == front + [last] && Map(front, ServiceId) == Map(services, ServiceId)[..|front|];
      SelectExactly(front, nodeGroup, wanted);
      NewIdentity(front, last);
      SelectOneMore(front, last, nodeGroup, wanted, Select(front, nodeGroup, wanted));
    }
  }

  lemma NewIdentity(front: seq<Service>, last: Service)
    requires Distinct(Map(front + [last], ServiceId))
    ensures forall x :: x in front ==> ServiceId(x) != ServiceId(last)
  {
    forall x | x in front
      ensures ServiceId(x) != ServiceId(last)
    {
      var i :| 0 <= i < |front| && front[i] == x;
      assert Map(front + [last], ServiceId)[i] != Map(front + [last], ServiceId)[|front|];
    }
  }

  // Before the last item its identity has not been met.
  lemma Unmet(front: seq<Service>, last: Service, nodeGroup: string, wanted: map<string, Service>, s: Selection)
    requires SelectedExactly(front, nodeGroup, wanted, s)
    requires forall x :: x in front ==> ServiceId(x) != ServiceId(last)
    requires forall id :: id in wanted ==> ServiceId(wanted[id]) == id
    ensures ServiceId(last) in s.rest <==> ServiceId(last) in wanted
  {
  }

  lemma MetOneMore(front: seq<Service>, last: Service, nodeGroup: string, x: Service)
    ensures Met(front + [last], nodeGroup, x) <==>
              Met(front, nodeGroup, x) || (last.nodeGroup == nodeGroup && last.(backends := []) == x)
  {
    var all := front + [last];
    if Met(front, nodeGroup, x) {
      var item :| item in front && item.nodeGroup == nodeGroup && item.(backends := []) == x;
      assert item in all;
    }
    if last.nodeGroup == nodeGroup && last.(backends := []) == x {
      assert last in all;
    }
  }

  lemma KeptOneMore(front: seq<Service>, last: Service, nodeGroup: string, wanted: map<string, Service>,
                    kept: seq<Service>)
    requires KeptExactly(front, nodeGroup, wanted, kept)
    ensures KeptExactly(front + [last], nodeGroup, wanted,
                        if Keeps(nodeGroup, wanted, last) then kept + [last] else kept)
  {
  }

  lemma RestOneMore(front: seq<Service>, last: Service, nodeGroup: string, wanted: map<string, Service>,
                    rest: map<string, Service>)
    requires RestExactly(front, nodeGroup, wanted, rest)
    requires forall id :: id in wanted ==> ServiceId(wanted[id]) == id
    ensures RestExactly(front + [last], nodeGroup, wanted,
                        if last.nodeGroup == nodeGroup && Keeps(nodeGroup, wanted, last) then rest - {ServiceId(last)}
                        else rest)
  {
    forall id | id in wanted
      ensures Met(front + [last], nodeGroup, wanted[id]) <==>
                || Met(front, nodeGroup, wanted[id])
                || (last.nodeGroup == nodeGroup && Keeps(nodeGroup, wanted, last) && id == ServiceId(last))
    {
      MetOneMore(front, last, nodeGroup, wanted[id]);
    }
  }

  lemma {:induction false} SelectOneMore(front: seq<Service>, last: Service, nodeGroup: string,
                                         wanted: map<string, Service>, s: Selection)
    requires s == Select(front, nodeGroup, wanted) && SelectedExactly(front, nodeGroup, wanted, s)
    requires forall x :: x in front ==> ServiceId(x) != ServiceId(last)
    requires forall id :: id in wanted ==> ServiceId(wanted[id]) == id
    ensures SelectedExactly(front + [last], nodeGroup, wanted, Select(front + [last], nodeGroup, wanted))
  {
    var all := front + [last];
    assert all[..|all| - 1] == front && all[|all| - 1] == last;
    Unmet(front, last, nodeGroup, wanted, s);
    KeptOneMore(front, last, nodeGroup, wanted, s.kept);
    RestOneMore(front, last, nodeGroup, wanted, s.rest);
  }

  /** The Services a node applies are exactly: the snapshot's Services of other NodeGroups that the local contract does
      not claim, with their backends; the snapshot's version, backends included, of every Service of the local contract
      that it has unchanged; and the local contract's own version of the rest. */
  lemma ChosenExactly(p: Platform, nodeGroup: string, local: seq<Service>, services: seq<Service>,
                      chosen: seq<Service>, s: Service)
    requires ServicesOk(p, nodeGroup, local) && Distinct(Map(services, ServiceId))
    requires Chosen(local, nodeGroup, services, chosen)
    ensures s in chosen <==>
              || (s in services && s.nodeGroup != nodeGroup && !ClaimedBy(local, s))
              || (s in services && s.nodeGroup == nodeGroup && s.(backends := []) in local)
              || (s in local && !Met(services, nodeGroup, s))
  {
    var wanted := Wanted(local);
    var selection := Select(services, nodeGroup, wanted);
    SelectExactly(services, nodeGroup, wanted);
    WantedIsLocal(p, nodeGroup, local, s);
    A.LeftoverMembers(local, selection.rest);
    A.SameMembers(selection.kept + Leftover(local, selection.rest), chosen);
    WantedIsLocal(p, nodeGroup, local, s.(backends := []));
  }

  // In a contract a Service is wanted under its identity exactly when it is in the contract.
  lemma {:induction false} WantedIsLocal(p: Platform, nodeGroup: string, local: seq<Service>, s: Service)
    requires ServicesOk(p, nodeGroup, local)
    ensures var wanted := Wanted(local);
            && (ServiceId(s) in wanted <==> ClaimedBy(local, s))
            && (s in local <==> ServiceId(s) in wanted && wanted[ServiceId(s)] == s)
  {
    if s in local {
      LookupIsMember(local, s);
    }
  }

  lemma {:induction false} LookupIsMember(local: seq<Service>, s: Service)
    requires Rising(local) && s in local
    ensures Lookup(local, ServiceId(s)) == Some(s)
  {
    var n := |local| - 1;
    var i :| 0 <= i < |local| && local[i] == s;
    if i < n {
      StringOrder(ServiceId(s), ServiceId(s), ServiceId(s));
      assert ServiceId(local[n]) != ServiceId(s);
      assert local[..n][i] == s;
      LookupIsMember(local[..n], s);
    }
  }
}
