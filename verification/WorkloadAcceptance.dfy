// Exactly when a written document is accepted by later callers, and two runs that reach a refused one.
module WorkloadAcceptance {
  import opened Net
  import opened Workload
  import opened WorkloadRotation

  // A reading outside the pending certificate's validity, less the activation lag, recorded as its publication.
  predicate Misrecords(s: State, now: Time, p: Publication) {
    && Records(s, now, p)
    && (now < s.certs[1].cert.notBefore || s.certs[1].cert.notAfter < now + ACTIVATION_LAG)
  }

  predicate Harmful(s: State, now: Time, p: Publication) {
    Overflows(s, now) || Misrecords(s, now, p)
  }

  // Refused by every caller at every time.
  ghost predicate Dead(s: State) {
    forall at: Time, issuing: bool :: !Accepts(s, at, issuing)
  }

  // Acceptance only ever begins: a later caller accepts what an earlier one does.
  lemma AcceptedLater(s: State, now: Time, later: Time)
    requires Accepts(s, now, false) && now <= later
    ensures Accepts(s, later, false)
  {
    forall i: nat | i < |s.certs|
      ensures RecordOk(s, i, later, false)
    {
      assert RecordOk(s, i, now, false);
    }
  }

  // Validation of a document of two records, spelled out.
  lemma AcceptsTwo(s: State, now: Time, issuing: bool)
    requires |s.certs| == 2
    ensures Accepts(s, now, issuing) <==>
              && s.version == 1 && s.current != 0 && RecordOk(s, 0, now, issuing) && RecordOk(s, 1, now, issuing)
              && (s.certs[0].generation == s.current || s.certs[1].generation == s.current)
  {
  }

  lemma AcceptsOne(s: State, now: Time)
    requires |s.certs| == 1
    ensures Accepts(s, now, false) <==>
              s.version == 1 && s.current != 0 && RecordOk(s, 0, now, false) && s.certs[0].generation == s.current
  {
  }

  lemma PrunedAccepted(s: State, now: Time, at: Time)
    requires Accepts(s, now, false) && Accepts(s, at, false)
    ensures Accepts(Prune(s, now), at, false)
  {
    AcceptedShape(s, now);
    PruneShort(s, now);
    if |s.certs| == 2 && Expired(s.certs[0], s.current, now) {
      assert Prune(s, now).certs == [s.certs[1]];
      AcceptsTwo(s, at, false);
      AcceptsOne(Prune(s, now), at);
    } else {
      assert Prune(s, now) == s;
    }
  }

  // Making the second record current, once its validity has begun.
  lemma PromoteAccepted(s: State, now: Time, from: Time)
    requires |s.certs| == 2 && s.version == 1 && s.current != 0 && CurrentIndex(s) == 0
    requires RecordOk(s, 0, now, false) && s.certs[0].generation < s.certs[1].generation && s.certs[1].retiredAt.None?
    requires s.certs[1].cert.notBefore <= now && s.certs[1].cert.notBefore < s.certs[1].cert.notAfter
    requires now - CLOCK_SKEW <= from
    ensures Accepts(Promote(s, 1, now), from, false)
  {
    AcceptsTwo(Promote(s, 1, now), from, false);
  }

  // The issuer beside a fresh successor.
  lemma FreshAccepted(s: State, issuer: Record, floor: Time, now: Time, year: Year, from: Time)
    requires s.version == 1 && issuer.generation == s.current != 0 && floor <= from
    requires issuer.cert.notBefore < issuer.cert.notAfter && LifecycleOk(issuer, s.current, floor, false)
    ensures Accepts(s.(certs := [issuer, NewPending(issuer.generation + 1, now, year)]), from, false)
  {
    AcceptsTwo(s.(certs := [issuer, NewPending(issuer.generation + 1, now, year)]), from, false);
  }

  lemma RecoverAccepted(s: State, changed: bool, floor: Time, now: Time, year: Year, p: Publication)
    requires Accepts(s, now, false) && Accepts(s, floor, false)
    requires CurrentIndex(s) < |s.certs| && (PendingIndex(s) < |s.certs| ==> !changed)
    requires Recover(s, changed, now, year, p).Write?
    ensures Accepts(Recover(s, changed, now, year, p).state, Max(floor, now - CLOCK_SKEW), false)
  {
    AcceptedShape(s, now);
    var from, current := Max(floor, now - CLOCK_SKEW), Issuer(s);
    assert RecordOk(s, CurrentIndex(s), floor, false) && RecordOk(s, CurrentIndex(s), now, false);
    if Usable(s, PendingIndex(s), now) {
      assert |s.certs| == 2 && CurrentIndex(s) == 0 && PendingIndex(s) == 1;
      assert RecordOk(s, 1, now, false);
      PromoteAccepted(s, now, from);
    } else {
      var next := s.(certs := [current, NewPending(current.generation + 1, now, year)]);
      FreshAccepted(s, current, floor, now, year, from);
      assert CurrentIndex(next) == 0;
      assert RecordOk(next, 0, now, false);
      PromoteAccepted(next, now, from);
    }
  }

  lemma AdvanceAccepted(s: State, floor: Time, now: Time, p: Publication)
    requires Accepts(s, now, false) && Accepts(s, floor, false)
    requires |s.certs| == 2 && PendingIndex(s) == 1 && CurrentIndex(s) == 0
    requires now < Issuer(s).cert.notAfter && Advance(s, false, now, p).Write?
    ensures Misrecords(s, now, p) ==> Dead(Advance(s, false, now, p).state)
    ensures !Misrecords(s, now, p) ==> Accepts(Advance(s, false, now, p).state, Max(floor, now - CLOCK_SKEW), false)
  {
    AcceptsTwo(s, now, false);
    AcceptsTwo(s, floor, false);
    var t, from := Advance(s, false, now, p).state, Max(floor, now - CLOCK_SKEW);
    if Records(s, now, p) {
      var published := s.certs[1].(publishedAt := Some(now), activateAt := Some(now + ACTIVATION_LAG));
      assert t == s.(certs := s.certs[1 := published]);
      AcceptsTwo(t, from, false);
      forall at: Time, issuing: bool | Misrecords(s, now, p)
        ensures !Accepts(t, at, issuing)
      {
        AcceptsTwo(t, at, issuing);
      }
    } else {
      PromoteAccepted(s, now, from);
    }
  }

  // Neither expired nor pending: a write that does not overflow starts from the issuer alone.
  lemma RestIsAlone(s: State, now: Time, year: Year, p: Publication)
    requires Accepts(s, now, false) && !Overflows(s, now)
    requires var pruned := Prune(s, now);
             CurrentIndex(pruned) < |pruned.certs| == PendingIndex(pruned) && now < Issuer(pruned).cert.notAfter
    requires Attempted(Document(s), now, year, p).Write?
    ensures |Prune(s, now).certs| == 1
  {
    PrunedShape(s, now);
    PruneShort(s, now);
    assert |Prune(s, now).certs| == 2 ==> Prune(s, now).certs == s.certs;
  }

  // It begins a successor, or only prunes.
  lemma RestAccepted(s: State, floor: Time, now: Time, year: Year)
    requires Accepts(s, floor, false) && |s.certs| == 1
    ensures var pending := NewPending(s.certs[0].generation + 1, now, year);
            && Accepts(s.(certs := s.certs + [pending]), Max(floor, now - CLOCK_SKEW), false)
            && Accepts(s, Max(floor, now - CLOCK_SKEW), false)
  {
    var from, pending := Max(floor, now - CLOCK_SKEW), NewPending(s.certs[0].generation + 1, now, year);
    AcceptsOne(s, floor);
    FreshAccepted(s, s.certs[0], floor, now, year, from);
    AcceptedLater(s, floor, from);
    assert s.certs + [pending] == [s.certs[0], pending];
  }

  /** A document written from an accepted one is accepted by every later caller exactly when the write neither overflows
      nor misrecords a publication; otherwise every caller refuses it at every time. The caller's clock reading `now`
      may be of any age; `floor` is any reading at which the document it read is accepted. */
  lemma WriteAcceptedExactly(s: State, floor: Time, now: Time, year: Year, p: Publication, later: Time)
    requires Accepts(s, now, false) && Accepts(s, floor, false) && Max(floor, now - CLOCK_SKEW) <= later
    requires Attempted(Document(s), now, year, p).Write?
    ensures Accepts(Attempted(Document(s), now, year, p).state, later, false) <==> !Harmful(s, now, p)
    ensures Harmful(s, now, p) ==> Dead(Attempted(Document(s), now, year, p).state)
  {
    WriteOverflowsExactly(s, now, year, p);
    PrunedShape(s, now);
    AcceptedShape(s, now);
    PrunedAccepted(s, now, now);
    PrunedAccepted(s, now, floor);
    var pruned, plan := Prune(s, now), Attempted(Document(s), now, year, p);
    assert plan == Rotate(s, now, year, p);
    if Issuer(pruned).cert.notAfter <= now {
      RecoverAccepted(pruned, |pruned.certs| != |s.certs|, floor, now, year, p);
    } else if PendingIndex(pruned) < |pruned.certs| {
      AdvanceAccepted(s, floor, now, p);
    } else if !Overflows(s, now) {
      RestIsAlone(s, now, year, p);
      RestAccepted(pruned, floor, now, year);
    }
    if !Harmful(s, now, p) {
      AcceptedLater(plan.state, Max(floor, now - CLOCK_SKEW), later);
    }
  }

  // A harmful attempt always writes.
  lemma HarmfulWrites(s: State, now: Time, year: Year, p: Publication)
    requires Accepts(s, now, false) && Harmful(s, now, p)
    ensures Attempted(Document(s), now, year, p).Write?
  {
    WriteOverflowsExactly(s, now, year, p);
    PrunedShape(s, now);
    AcceptedShape(s, now);
    PruneShort(s, now);
  }

  // ---- Two runs that reach a refused document ----

  const COMMON_YEAR: Year := 365 * DAY
  const UNSEEN := Publication(true, true, NotFound)
  const ISSUER := NewRecord(1, 0, COMMON_YEAR)
  const SUCCESSOR := NewPending(2, 336 * DAY, COMMON_YEAR)
  const BEGUN := State(1, 1, [ISSUER])
  const PENDING := State(1, 1, [ISSUER, SUCCESSOR])
  const VISIBLE := Publication(true, true, Object(Bundle([ISSUER, SUCCESSOR])))
  const LATE: Time := 661 * DAY
  const PROMOTED := State(1, 2, [ISSUER.(retiredAt := Some(LATE)), SUCCESSOR.(activateAt := None)])

  // Six minutes before the pending certificate was made, as a slow caller's clock read.
  const EARLY: Time := 336 * DAY - 360_000_000_000
  const MISRECORDED :=
    State(1, 1, [ISSUER, SUCCESSOR.(publishedAt := Some(EARLY), activateAt := Some(EARLY + ACTIVATION_LAG))])

  // How every run starts: a first issuer, and a successor 29 days before it expires.
  lemma Begins()
    ensures Attempted(Missing, 0, COMMON_YEAR, UNSEEN) == Write(BEGUN)
    ensures Attempted(Document(BEGUN), 336 * DAY, COMMON_YEAR, UNSEEN) == Write(PENDING)
  {
    assert RecordOk(BEGUN, 0, 336 * DAY, false);
    PruneShort(BEGUN, 336 * DAY);
    assert [ISSUER] + [SUCCESSOR] == [ISSUER, SUCCESSOR];
  }

  lemma PendingIsKept(now: Time)
    requires EARLY <= now <= LATE
    ensures Accepts(PENDING, now, false) && Prune(PENDING, now) == PENDING
    ensures CurrentIndex(PENDING) == 0 && PendingIndex(PENDING) == 1
  {
    AcceptsTwo(PENDING, now, false);
    PruneShort(PENDING, now);
  }

  lemma StaysPending(now: Time)
    requires 365 * DAY <= now <= LATE
    ensures Attempted(Document(PENDING), now, COMMON_YEAR, UNSEEN) == Unchanged
  {
    PendingIsKept(now);
  }

  lemma PromotesLate()
    ensures Attempted(Document(PENDING), LATE, COMMON_YEAR, VISIBLE) == Write(PROMOTED)
    ensures Accepts(PROMOTED, LATE + 15 * DAY, false)
  {
    PendingIsKept(LATE);
    AcceptsTwo(PROMOTED, LATE + 15 * DAY, false);
  }

  /** A third record is reachable: a successor left unpublished until forty days before its own expiry. */
  lemma OverflowIsReachable(p: Publication)
    ensures Attempted(Missing, 0, COMMON_YEAR, UNSEEN) == Write(BEGUN)
    ensures Attempted(Document(BEGUN), 336 * DAY, COMMON_YEAR, UNSEEN) == Write(PENDING)
    ensures Attempted(Document(PENDING), 400 * DAY, COMMON_YEAR, UNSEEN) == Unchanged
    ensures Attempted(Document(PENDING), LATE, COMMON_YEAR, VISIBLE) == Write(PROMOTED)
    ensures Accepts(PROMOTED, LATE + 15 * DAY, false) && Overflows(PROMOTED, LATE + 15 * DAY)
    ensures var plan := Attempted(Document(PROMOTED), LATE + 15 * DAY, COMMON_YEAR, p);
            plan.Write? && |plan.state.certs| == 3 && Dead(plan.state)
  {
    Begins();
    StaysPending(400 * DAY);
    PromotesLate();
    WriteOverflowsExactly(PROMOTED, LATE + 15 * DAY, COMMON_YEAR, p);
  }

  /** A misrecorded publication is reachable with perfect clocks: the caller read its clock six minutes before the
      successor was made, and its write lands after the successor became visible. */
  lemma MisrecordIsReachable()
    ensures Attempted(Missing, 0, COMMON_YEAR, UNSEEN) == Write(BEGUN)
    ensures Attempted(Document(BEGUN), 336 * DAY, COMMON_YEAR, UNSEEN) == Write(PENDING)
    ensures Sound(PENDING, 336 * DAY) && Accepts(PENDING, EARLY, false) && Misrecords(PENDING, EARLY, VISIBLE)
    ensures Attempted(Document(PENDING), EARLY, COMMON_YEAR, VISIBLE) == Write(MISRECORDED) && Dead(MISRECORDED)
  {
    Begins();
    PendingIsKept(EARLY);
    AdvanceAccepted(PENDING, EARLY, EARLY, VISIBLE);
  }
}
