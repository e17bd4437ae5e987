// When an issuer is renewed, when its successor is promoted and which certificate then signs, said about an accepted
// document, the clock and the external object rather than about the code's branches.
module WorkloadPromotion {
  import opened Net
  import opened Workload
  import opened WorkloadRotation

  // The external object is not used, or was read back as exactly these certificates.
  predicate Visible(p: Publication, bundle: seq<Certificate>) {
    !p.configured || p.read == Object(bundle)
  }

  function WholeSeconds(t: Time): Time { t - t % 1_000_000_000 }

  // A certificate from five minutes ago for a year, in whole seconds.
  function FreshCertificate(generation: nat, now: Time, year: Year): Certificate {
    Certificate(generation, WholeSeconds(now - 300_000_000_000), WholeSeconds(now + year))
  }

  // A successor waits fifteen minutes from the start of its certificate.
  function Successor(generation: nat, now: Time, year: Year): Record {
    var cert := FreshCertificate(generation, now, year);
    Record(generation, cert, None, Some(cert.notBefore + 900_000_000_000), None)
  }

  // The old issuer retired now, and the other record issuing.
  function Promoted(s: State, issuer: Record, next: Record, now: Time): State {
    State(s.version, next.generation,
          [issuer.(retiredAt := Some(now)), next.(publishedAt := None, activateAt := None)])
  }

  predicate Promotes(s: State, plan: Plan) { plan.Write? && plan.state.current != s.current }

  // The document has a successor waiting beside the issuer.
  predicate Waiting(s: State) {
    |s.certs| == 2 && s.certs[0].generation == s.current
  }

  lemma WaitingShape(s: State, now: Time)
    requires Accepts(s, now, false)
    ensures Waiting(s) ==>
              && CurrentIndex(s) == 0 && PendingIndex(s) == 1 && s.certs[1].activateAt.Some?
              && s.certs[0].generation < s.certs[1].generation && Prune(s, now) == s
    ensures !Waiting(s) ==> PendingIndex(s) == |s.certs| && CurrentIndex(s) == |s.certs| - 1
    ensures !Waiting(s) && |s.certs| == 2 ==> s.certs[0].retiredAt.Some?
  {
    AcceptedShape(s, now);
    PruneShort(s, now);
    assert RecordOk(s, 0, now, false);
    if |s.certs| == 2 {
      assert RecordOk(s, 1, now, false);
      if Waiting(s) {
        assert s.certs == [s.certs[0]] + [s.certs[1]];
      }
    } else {
      assert s.certs[0].generation == s.current;
    }
  }

  // What pruning leaves of a document without a waiting successor: a retired record goes 30 days and 5 minutes on.
  function Remaining(s: State, now: Time): seq<Record>
    requires 0 < |s.certs| <= 2
  {
    if |s.certs| == 2 && s.certs[0].retiredAt.Some?
       && s.certs[0].retiredAt.value + 2_592_300_000_000_000 <= now then [s.certs[1]] else s.certs
  }

  // The document is pruned to these records, of which the last issues.
  ghost predicate PrunedTo(s: State, now: Time, kept: seq<Record>, issuer: Record) {
    && Prune(s, now) == s.(certs := kept) && 0 < |kept| <= |s.certs| && (|kept| == |s.certs| ==> kept == s.certs)
    && CurrentIndex(Prune(s, now)) == |kept| - 1 && PendingIndex(Prune(s, now)) == |kept|
    && issuer == kept[|kept| - 1] && issuer.generation == s.current && 0 < |s.certs| <= 2
    && CurrentIndex(s) < |s.certs| && Issuer(s) == issuer
    && forall r :: r in s.certs ==> r.generation <= s.current
  }

  lemma RemainingIs(s: State, now: Time)
    requires Accepts(s, now, false) && !Waiting(s)
    ensures Prune(s, now).certs == Remaining(s, now)
  {
    WaitingShape(s, now);
    PruneShort(s, now);
    assert RecordOk(s, 0, now, false);
    if |s.certs| == 2 {
      assert RecordOk(s, 1, now, false);
      assert s.certs == [s.certs[0]] + [s.certs[1]];
    }
  }

  // The last record issues, an earlier one is retired.
  lemma LastIssues(s: State, now: Time)
    requires Accepts(s, now, false) && !Waiting(s)
    ensures var issuer := s.certs[|s.certs| - 1];
            && issuer.generation == s.current && issuer.activateAt.None?
            && CurrentIndex(s) == |s.certs| - 1 && forall r :: r in s.certs ==> r.generation <= s.current
    ensures |s.certs| == 2 ==> s.certs[0].generation != s.current && s.certs[0].activateAt.None?
  {
    WaitingShape(s, now);
    AcceptedShape(s, now);
    assert RecordOk(s, 0, now, false);
    assert |s.certs| == 2 ==> RecordOk(s, 1, now, false);
  }

  lemma RemainingIsPruned(s: State, now: Time)
    requires Accepts(s, now, false) && !Waiting(s)
    ensures PrunedTo(s, now, Remaining(s, now), s.certs[|s.certs| - 1])
  {
    RemainingIs(s, now);
    LastIssues(s, now);
    var kept := Remaining(s, now);
    assert forall k :: 0 <= k < |kept| ==> kept[k].activateAt.None?;
    assert forall k :: 0 <= k < |kept| - 1 ==> kept[k].generation != s.current;
  }

  // ---- A valid issuer ----

  /** While the issuer is valid and a successor waits, the successor is promoted if and only if its activation time has
      passed and either there is no external object, or that object was read back as exactly both certificates and the
      successor's publication is recorded. The certificate that then issues is the successor's. A publication not
      recorded yet is recorded, with ten minutes to wait; an unreadable object fails; otherwise nothing is written. */
  lemma WaitingExactly(s: State, now: Time, year: Year, p: Publication)
    requires Accepts(s, now, false) && Waiting(s) && now < s.certs[0].cert.notAfter
    ensures var plan, next := Attempted(Document(s), now, year, p), s.certs[1];
            var bundle := [s.certs[0].cert, next.cert];
            && next.activateAt.Some?
            && (Promotes(s, plan) <==>
                  Visible(p, bundle) && (p.configured ==> next.publishedAt.Some?) && next.activateAt.value <= now)
            && (Promotes(s, plan) ==> plan.state == Promoted(s, s.certs[0], next, now))
            && (!Promotes(s, plan) ==>
                  plan == if p.configured && p.read.ReadError? then Fail
                          else if p.configured && p.read == Object(bundle) && next.publishedAt.None? then
                            Write(s.(certs := [s.certs[0], next.(publishedAt := Some(now),
                                                                 activateAt := Some(now + 600_000_000_000))]))
                          else Unchanged)
  {
    WaitingShape(s, now);
    assert Bundle(s.certs) == [s.certs[0].cert, s.certs[1].cert];
    assert s.certs == [s.certs[0], s.certs[1]];
    var plan := Attempted(Document(s), now, year, p);
    assert plan == Advance(s, false, now, p);
  }

  /** A valid issuer without a waiting successor gets one if and only if it has at most 30 days left; a retired record
      is dropped 30 days and 5 minutes after its retirement; otherwise nothing is written. */
  lemma RenewsExactly(s: State, now: Time, year: Year, p: Publication)
    requires Accepts(s, now, false) && !Waiting(s) && now < s.certs[|s.certs| - 1].cert.notAfter
    ensures var kept, issuer := Remaining(s, now), s.certs[|s.certs| - 1];
            Attempted(Document(s), now, year, p)
            == if issuer.cert.notAfter <= now + 2_592_000_000_000_000 then
                 Write(s.(certs := kept + [Successor(issuer.generation + 1, now, year)]))
               else if kept != s.certs then Write(s.(certs := kept))
               else Unchanged
  {
    RemainingIsPruned(s, now);
    RenewalPlan(s, now, year, p, Remaining(s, now), s.certs[|s.certs| - 1]);
  }

  lemma NewIsSuccessor(generation: nat, now: Time, year: Year)
    ensures NewPending(generation, now, year) == Successor(generation, now, year)
  {
  }

  lemma RenewalPlan(s: State, now: Time, year: Year, p: Publication, kept: seq<Record>, issuer: Record)
    requires Accepts(s, now, false) && PrunedTo(s, now, kept, issuer) && now < issuer.cert.notAfter
    ensures Attempted(Document(s), now, year, p)
         == if issuer.cert.notAfter <= now + 2_592_000_000_000_000 then
              Write(s.(certs := kept + [Successor(issuer.generation + 1, now, year)]))
            else if kept != s.certs then Write(s.(certs := kept))
            else Unchanged
  {
    NewIsSuccessor(issuer.generation + 1, now, year);
    assert Attempted(Document(s), now, year, p) == Rotate(s, now, year, p);
  }

  // ---- An expired issuer ----

  // The waiting successor, if its certificate is valid now, else a new one.
  function Heir(s: State, now: Time, year: Year): Record
    requires 0 < |s.certs| <= 2
  {
    if Waiting(s) && s.certs[1].cert.notBefore <= now < s.certs[1].cert.notAfter then s.certs[1]
    else Successor((if Waiting(s) then s.certs[0] else s.certs[|s.certs| - 1]).generation + 1, now, year)
  }

  /** Once the issuer has expired, the waiting successor, or a new one if that is not valid now, is promoted at once if
      and only if there is no external object, or publishing to it succeeded and it was read back as exactly both
      certificates. The certificate that then issues is valid now. Otherwise a new successor is stored, and a waiting
      one stays; a failed publication or an unreadable object fails. */
  lemma RecoversExactly(s: State, now: Time, year: Year, p: Publication)
    requires Accepts(s, now, false) && CurrentIndex(s) < |s.certs| && Issuer(s).cert.notAfter <= now
    ensures var plan, heir := Attempted(Document(s), now, year, p), Heir(s, now, year);
            var bundle := [Issuer(s).cert, heir.cert];
            && heir.cert.notBefore <= now < heir.cert.notAfter && s.current < heir.generation
            && (Promotes(s, plan) <==> Visible(p, bundle) && (p.configured ==> p.publishes))
            && (Promotes(s, plan) ==> plan.state == Promoted(s, Issuer(s), heir, now))
            && (!Promotes(s, plan) ==>
                  plan == if !p.publishes || p.read.ReadError? then Fail
                          else if heir in s.certs then Unchanged
                          else Write(s.(certs := [Issuer(s), heir])))
  {
    WaitingShape(s, now);
    HeirIsValid(s, now, year);
    if Waiting(s) {
      RecoversWaiting(s, now, year, p);
    } else {
      RecoversAlone(s, now, year, p);
    }
  }

  lemma HeirIsValid(s: State, now: Time, year: Year)
    requires Accepts(s, now, false)
    ensures var heir := Heir(s, now, year);
            heir.cert.notBefore <= now < heir.cert.notAfter && s.current < heir.generation
  {
    WaitingShape(s, now);
    AcceptedShape(s, now);
  }

  lemma RecoversAlone(s: State, now: Time, year: Year, p: Publication)
    requires Accepts(s, now, false) && !Waiting(s) && CurrentIndex(s) < |s.certs| && Issuer(s).cert.notAfter <= now
    ensures RecoveryIs(s, now, p, Heir(s, now, year), Attempted(Document(s), now, year, p))
  {
    RemainingIsPruned(s, now);
    RecoveryAlone(s, now, year, p, Remaining(s, now), s.certs[|s.certs| - 1]);
  }

  lemma RecoveryAlone(s: State, now: Time, year: Year, p: Publication, kept: seq<Record>, issuer: Record)
    requires Accepts(s, now, false) && PrunedTo(s, now, kept, issuer) && issuer.cert.notAfter <= now
    ensures RecoveryIs(s, now, p, Successor(issuer.generation + 1, now, year), Attempted(Document(s), now, year, p))
  {
    var pruned, heir := Prune(s, now), Successor(issuer.generation + 1, now, year);
    NewIsSuccessor(issuer.generation + 1, now, year);
    assert Attempted(Document(s), now, year, p) == Recover(pruned, |kept| != |s.certs|, now, year, p);
    RecoveryPlan(pruned, |kept| != |s.certs|, now, year, p, s, issuer, heir, true);
  }

  lemma RecoversWaiting(s: State, now: Time, year: Year, p: Publication)
    requires Accepts(s, now, false) && Waiting(s) && CurrentIndex(s) < |s.certs| && Issuer(s).cert.notAfter <= now
    ensures var plan, heir := Attempted(Document(s), now, year, p), Heir(s, now, year);
            RecoveryIs(s, now, p, heir, plan)
  {
    WaitingShape(s, now);
    AcceptedShape(s, now);
    var issuer, heir := Issuer(s), Heir(s, now, year);
    assert Attempted(Document(s), now, year, p) == Recover(s, false, now, year, p);
    RecoveryPlan(s, false, now, year, p, s, issuer, heir, heir != s.certs[1] || !Usable(s, 1, now));
  }

  ghost predicate RecoveryIs(s: State, now: Time, p: Publication, heir: Record, plan: Plan)
    requires CurrentIndex(s) < |s.certs|
  {
    var bundle := [Issuer(s).cert, heir.cert];
    && (Promotes(s, plan) <==> Visible(p, bundle) && (p.configured ==> p.publishes))
    && (Promotes(s, plan) ==> plan.state == Promoted(s, Issuer(s), heir, now))
    && (!Promotes(s, plan) ==>
          plan == if !p.publishes || p.read.ReadError? then Fail
                  else if heir in s.certs then Unchanged
                  else Write(s.(certs := [Issuer(s), heir])))
  }

  lemma RecoveryPlan(pruned: State, changed: bool, now: Time, year: Year, p: Publication, s: State, issuer: Record,
                     heir: Record, made: bool)
    requires CurrentIndex(pruned) < |pruned.certs| && CurrentIndex(s) < |s.certs| && Issuer(s) == issuer
    requires pruned.version == s.version && pruned.current == s.current && Issuer(pruned) == issuer
    requires heir.generation != s.current && issuer.generation == s.current
    requires made <==> !Usable(pruned, PendingIndex(pruned), now)
    requires made ==> heir == NewPending(issuer.generation + 1, now, year) && heir !in s.certs
    requires !made ==> pruned == s && s.certs == [issuer, heir] && PendingIndex(s) == 1 && !changed
    ensures RecoveryIs(s, now, p, heir, Recover(pruned, changed, now, year, p))
  {
    var certs := if made then [issuer, heir] else pruned.certs;
    var next := pruned.(certs := certs);
    assert certs == [issuer, heir] && CurrentIndex(next) == 0;
    assert Bundle(certs) == [issuer.cert, heir.cert];
    assert Promote(next, 1, now) == Promoted(s, issuer, heir, now);
  }
}
