// What a follower does without fresh snapshots, and what a change of its own contract does: when backends are withdrawn
// and which Services stay.
module Withdrawal {
  import opened Net
  import opened Sorting
  import opened Wire
  import opened Contracts
  import opened Merge
  import opened MergeProperties
  import opened NodeApply
  import opened Registry
  import opened Coordination
  import opened CoordinationRuns
  import opened Overlays
  import opened Publishing
  import A = ApplyProperties

  // ---- Choosing over an overlay of the same contract ----

  lemma {:induction false} RemoteDistinct(services: seq<Service>, nodeGroup: string, local: seq<Service>)
    requires Distinct(Map(services, ServiceId))
    ensures Distinct(Map(Remote(services, nodeGroup, local), ServiceId))
  {
    if services != [] {
      var front, last := services[..|services| - 1], services[|services| - 1];
      assert services == front + [last] && Map(front, ServiceId) == Map(services, ServiceId)[..|front|];
      RemoteDistinct(front, nodeGroup, local);
      NewIdentity(front, last);
      forall x | x in Remote(front, nodeGroup, local)
        ensures ServiceId(x) != ServiceId(last)
      {
        RemoteMembers(front, nodeGroup, local, x);
      }
      JoinIds(Remote(front, nodeGroup, local), [last]);
    }
  }

  lemma JoinIds(a: seq<Service>, b: seq<Service>)
    requires Distinct(Map(a, ServiceId)) && Distinct(Map(b, ServiceId))
    requires forall x, y :: x in a && y in b ==> ServiceId(x) != ServiceId(y)
    ensures Distinct(Map(a + b, ServiceId))
  {
    var all := a + b;
    forall i, j | 0 <= i < j < |all|
      ensures Map(all, ServiceId)[i] != Map(all, ServiceId)[j]
    {
      if j < |a| {
        assert Map(a, ServiceId)[i] != Map(a, ServiceId)[j];
      } else if i < |a| {
        assert all[i] in a && all[j] in b;
      } else {
        assert Map(b, ServiceId)[i - |a|] != Map(b, ServiceId)[j - |a|];
      }
    }
  }

  lemma OverlayDistinct(p: Platform, services: seq<Service>, nodeGroup: string, local: seq<Service>)
    requires ServicesOk(p, nodeGroup, local) && Distinct(Map(services, ServiceId))
    ensures Distinct(Map(Overlay(services, nodeGroup, local), ServiceId))
  {
    var remote := Remote(services, nodeGroup, local);
    RemoteDistinct(services, nodeGroup, local);
    ContractIdsDistinct(local);
    forall x, y | x in remote && y in local
      ensures ServiceId(x) != ServiceId(y)
    {
      RemoteMembers(services, nodeGroup, local, x);
    }
    JoinIds(remote, local);
    MapPermuted(remote + local, Overlay(services, nodeGroup, local), ServiceId);
    DistinctPermuted(Map(remote + local, ServiceId), Map(Overlay(services, nodeGroup, local), ServiceId));
  }

  /** An attempt to take a generation writes if and only if the durable object could be read and the candidate names no
      identity twice. With a valid contract over a snapshot whose identities are distinct it always does. */
  lemma AttemptWritesExactly(p: Platform, nodeId: string, nodeGroup: string, local: seq<Service>, attempt: Attempt)
    ensures var request := CandidateOf(nodeId, nodeGroup, local, attempt);
            && (attempt.read.None? ==> request.None?)
            && (attempt.read.Some? ==>
                  var candidate := AcquireCandidate(nodeId, nodeGroup, attempt.read.value, local);
                  && (request.Some? <==>
                        forall i, j :: 0 <= i < j < |candidate.services| ==>
                          ServiceId(candidate.services[i]) != ServiceId(candidate.services[j]))
                  && (request.Some? ==> request.value == Request(attempt.read.value, candidate)))
    ensures attempt.read.Some? && ServicesOk(p, nodeGroup, local)
            && (attempt.read.value.Some? ==> Distinct(Map(attempt.read.value.value.services, ServiceId))) ==>
              CandidateOf(nodeId, nodeGroup, local, attempt).Some?
  {
    if attempt.read.Some? {
      var candidate := AcquireCandidate(nodeId, nodeGroup, attempt.read.value, local);
      var ids := Map(candidate.services, ServiceId);
      assert forall i :: 0 <= i < |ids| ==> ids[i] == ServiceId(candidate.services[i]);
      if ServicesOk(p, nodeGroup, local)
         && (attempt.read.value.Some? ==> Distinct(Map(attempt.read.value.value.services, ServiceId))) {
        var before := if attempt.read.value.None? then [] else attempt.read.value.value.services;
        assert Map(Stripped(before), ServiceId) == Map(before, ServiceId) && Stripped([]) == [];
        OverlayDistinct(p, Stripped(before), nodeGroup, local);
      }
    }
  }

  // The Services of other NodeGroups that the contract does not claim, and the contract.
  predicate Beside(services: seq<Service>, nodeGroup: string, local: seq<Service>, s: Service) {
    s in local || (s in services && s.nodeGroup != nodeGroup && !ClaimedBy(local, s))
  }

  lemma OverlayChosen(p: Platform, services: seq<Service>, nodeGroup: string, local: seq<Service>,
                      chosen: seq<Service>, s: Service)
    requires ServicesOk(p, nodeGroup, local) && Distinct(Map(services, ServiceId))
    requires Chosen(local, nodeGroup, Overlay(services, nodeGroup, local), chosen)
    ensures s in chosen <==> Beside(services, nodeGroup, local, s)
  {
    var overlay := Overlay(services, nodeGroup, local);
    OverlayDistinct(p, services, nodeGroup, local);
    ChosenExactly(p, nodeGroup, local, overlay, chosen, s);
    OverlayExactly(services, nodeGroup, local, s);
    if s in local {
      A.LocalIsBare(p, nodeGroup, local, s);
      OverlayExactly(services, nodeGroup, local, s);
      assert s in overlay && s.nodeGroup == nodeGroup && s.(backends := []) == s;
    }
    if s in services && s.nodeGroup == nodeGroup && s in overlay {
      assert s in local;
    }
  }

  // ---- Withdrawal ----

  /** A node that holds a snapshot withdraws, whatever its contract, if and only if it has not withdrawn yet and more
      than 35 seconds have passed since it accepted its last snapshot. */
  lemma WithdrawsExactly(p: Platform, w: World, node: string, local: seq<Service>, now: Time)
    requires node in w.members && w.members[node].view.snapshot.Some? && BareContract(local)
    ensures var v := w.members[node].view;
            (exists a: Application :: a.now == now && a.succeeds && Enabled(p, w, At(node, GoStale(local, a)))) <==>
              !v.stale && now - v.lastSnapshot > 35_000_000_000
  {
    var m := w.members[node];
    if !m.view.stale && now - m.view.lastSnapshot > 35_000_000_000 {
      var services := Overlay(Stripped(m.view.snapshot.value.services), m.config.nodeGroup, local);
      var a := ApplicationExists(m.config.nodeGroup, services, local, now);
      assert Enabled(p, w, At(node, GoStale(local, a)));
    }
  }

  /** After a withdrawal the node has exactly the identities it had, those its contract does not claim or replace, and
      no backend at all; the accepted snapshot stays. */
  lemma WithdrawalKeepsIdentities(p: Platform, w: World, node: string, local: seq<Service>, a: Application, s: Service)
    requires node in w.members && Enabled(p, w, At(node, GoStale(local, a))) && a.succeeds && a.local == local
    requires ServicesOk(p, w.members[node].config.nodeGroup, local)
    requires Distinct(Map(w.members[node].view.snapshot.value.services, ServiceId))
    ensures var m, v := w.members[node], CoordinationRuns.Step(p, w, At(node, GoStale(local, a))).members[node].view;
            && v.stale && v.snapshot == m.view.snapshot
            && (s in v.applied <==>
                  || s in local
                  || (s.nodeGroup != m.config.nodeGroup && !ClaimedBy(local, s)
                      && exists x :: x in m.view.snapshot.value.services && s == x.(backends := [])))
            && (s in v.applied ==> s.backends == [])
  {
    var m := w.members[node];
    var services := m.view.snapshot.value.services;
    assert Map(Stripped(services), ServiceId) == Map(services, ServiceId);
    OverlayChosen(p, Stripped(services), m.config.nodeGroup, local, a.chosen, s);
    StrippedMembers(services, s);
    if s in local {
      A.LocalIsBare(p, m.config.nodeGroup, local, s);
    }
  }

  // ---- A change of the local contract ----

  lemma CarriedChosen(p: Platform, v: View, nodeGroup: string, local: seq<Service>, chosen: seq<Service>, s: Service)
    requires v.snapshot.Some? && Distinct(Map(v.snapshot.value.services, ServiceId)) && ServicesOk(p, nodeGroup, local)
    requires Chosen(local, nodeGroup, Overlay(Carried(v), nodeGroup, local), chosen)
    ensures !v.stale ==> (s in chosen <==> Beside(v.snapshot.value.services, nodeGroup, local, s))
    ensures v.stale ==> s in chosen ==> s.backends == []
  {
    var services := v.snapshot.value.services;
    assert Map(Stripped(services), ServiceId) == Map(services, ServiceId);
    OverlayChosen(p, Carried(v), nodeGroup, local, chosen, s);
    if s in local {
      A.LocalIsBare(p, nodeGroup, local, s);
    }
  }

  /** A change of the local contract replaces this NodeGroup's Services at once and keeps the others, with their
      backends unless these are withdrawn already; the accepted snapshot stays. */
  lemma LocalChangeExactly(p: Platform, w: World, node: string, local: seq<Service>, a: Application, s: Service)
    requires node in w.members && w.members[node].view.snapshot.Some?
    requires Enabled(p, w, At(node, LocalChange(local, a))) && a.succeeds && a.local == local
    requires ServicesOk(p, w.members[node].config.nodeGroup, local)
    requires Distinct(Map(w.members[node].view.snapshot.value.services, ServiceId))
    ensures var m := w.members[node];
            var v := CoordinationRuns.Step(p, w, At(node, LocalChange(local, a))).members[node].view;
            && v == m.view.(applied := v.applied)
            && (!m.view.stale ==>
                  (s in v.applied <==> Beside(m.view.snapshot.value.services, m.config.nodeGroup, local, s)))
            && (m.view.stale ==> s in v.applied ==> s.backends == [])
  {
    CarriedChosen(p, w.members[node].view, w.members[node].config.nodeGroup, local, a.chosen, s);
  }
}
