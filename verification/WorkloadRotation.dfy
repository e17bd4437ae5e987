// What rotation keeps: what every document written from a sound one satisfies, exactly when a written document is
// accepted by later callers, and what gates a promotion. A caller may have read its clock long before its write lands.
module WorkloadRotation {
  import opened Net
  import opened Workload

  // ---- Pruning documents of one and two records ----

  lemma {:induction false} KeptOne(a: Record, current: nat, now: Time)
    ensures Kept([a], current, now) == if Expired(a, current, now) then [] else [a]
  {
    assert [a][..0] == [];
  }

  lemma {:induction false} KeptTwo(a: Record, b: Record, current: nat, now: Time)
    ensures Kept([a, b], current, now)
         == (if Expired(a, current, now) then [] else [a]) + (if Expired(b, current, now) then [] else [b])
  {
    KeptOne(a, current, now);
    assert [a, b][..1] == [a];
  }

  lemma PruneShort(s: State, now: Time)
    requires 0 < |s.certs| <= 2
    ensures |s.certs| == 1 ==> Prune(s, now).certs == if Expired(s.certs[0], s.current, now) then [] else s.certs
    ensures |s.certs| == 2 ==>
              Prune(s, now).certs == (if Expired(s.certs[0], s.current, now) then [] else [s.certs[0]])
                                     + (if Expired(s.certs[1], s.current, now) then [] else [s.certs[1]])
  {
    if |s.certs| == 1 {
      assert s.certs == [s.certs[0]];
      KeptOne(s.certs[0], s.current, now);
    } else {
      assert s.certs == [s.certs[0], s.certs[1]];
      KeptTwo(s.certs[0], s.certs[1], s.current, now);
    }
  }

  // ---- Soundness of a document against the highest clock reading so far ----

  predicate Plain(r: Record) {
    && 0 < r.generation == r.cert.serial && r.cert.notBefore < r.cert.notAfter
    && (r.publishedAt.Some? ==> r.activateAt.Some?) && !(r.activateAt.Some? && r.retiredAt.Some?)
  }

  predicate CurrentSound(r: Record, current: nat, high: Time) {
    Plain(r) && r.generation == current && r.activateAt.None? && r.retiredAt.None? && r.cert.notBefore <= high
  }

  // The retired issuer expires before its successor needs a successor.
  predicate RetiredSound(r: Record, issuer: Record, high: Time) {
    && Plain(r) && r.generation < issuer.generation && r.activateAt.None? && r.retiredAt.Some?
    && r.retiredAt.value <= high && r.retiredAt.value + 2 * RETENTION + CLOCK_SKEW <= issuer.cert.notAfter
  }

  predicate PendingSound(r: Record, issuer: Record, high: Time) {
    && Plain(r) && issuer.generation < r.generation && r.retiredAt.None?
    && r.activateAt == Some(ExpectedActivation(r)) && ExpectedActivation(r) <= r.cert.notAfter
    && r.cert.notBefore <= high - CLOCK_SKEW && issuer.cert.notAfter + ACTIVATION_LAG <= r.cert.notAfter
    && (r.publishedAt.Some? ==> r.cert.notBefore <= r.publishedAt.value)
  }

  predicate Sound(s: State, high: Time) {
    && s.version == 1
    && ( || (|s.certs| == 1 && CurrentSound(s.certs[0], s.current, high))
         || (|s.certs| == 2 && CurrentSound(s.certs[1], s.current, high) && RetiredSound(s.certs[0], s.certs[1], high))
         || (|s.certs| == 2 && CurrentSound(s.certs[0], s.current, high) && PendingSound(s.certs[1], s.certs[0], high)))
  }

  function Issuer(s: State): Record
    requires CurrentIndex(s) < |s.certs|
  {
    s.certs[CurrentIndex(s)]
  }

  lemma SoundIndices(s: State, high: Time)
    requires Sound(s, high)
    ensures CurrentIndex(s) < |s.certs| && CurrentSound(Issuer(s), s.current, high)
    ensures PendingIndex(s) < |s.certs| <==> |s.certs| == 2 && s.certs[1].activateAt.Some?
    ensures PendingIndex(s) < |s.certs| ==> PendingIndex(s) == 1 && CurrentIndex(s) == 0
    ensures PendingIndex(s) == |s.certs| ==> CurrentIndex(s) == |s.certs| - 1
  {
    if |s.certs| == 2 && s.certs[1].activateAt.None? {
      assert s.certs[0].generation != s.current;
    }
  }

  /** A sound document is accepted by every caller whose clock is within the skew of the highest reading. */
  lemma SoundIsAccepted(s: State, high: Time, now: Time)
    requires Sound(s, high) && high - CLOCK_SKEW <= now
    ensures Accepts(s, now, false)
  {
    SoundIndices(s, high);
    assert RecordOk(s, 0, now, false);
    assert |s.certs| == 2 ==> RecordOk(s, 1, now, false);
  }

  function Max(a: Time, b: Time): Time { if a < b then b else a }

  // The life a newly promoted issuer must have left.
  predicate LifeLeft(s: State, now: Time) {
    CurrentIndex(s) < |s.certs| && now + 2 * RETENTION + CLOCK_SKEW <= Issuer(s).cert.notAfter
  }

  lemma FreshRecord(generation: nat, now: Time, year: Year, high: Time)
    requires generation > 0 && now <= high
    ensures var r := NewRecord(generation, now, year);
            CurrentSound(r, generation, high) && r.cert.notBefore <= now - CLOCK_SKEW
              && now + 360 * DAY <= r.cert.notAfter
  {
  }

  lemma FreshPending(issuer: Record, now: Time, year: Year, high: Time)
    requires issuer.generation > 0 && now <= high && issuer.cert.notAfter <= now + RETENTION
    ensures PendingSound(NewPending(issuer.generation + 1, now, year), issuer, high)
  {
    FreshRecord(issuer.generation + 1, now, year, high);
  }

  lemma HigherSound(s: State, high: Time, higher: Time)
    requires Sound(s, high) && high <= higher
    ensures Sound(s, higher)
  {
  }

  lemma PruneSound(s: State, high: Time, now: Time)
    requires Sound(s, high)
    ensures var p := Prune(s, now);
            && Sound(p, high) && p.current == s.current && SameIssuer(p, s)
            && (|p.certs| == 2 && p.certs[0].retiredAt.Some? ==>
                now < p.certs[0].retiredAt.value + RETENTION + CLOCK_SKEW)
  {
    SoundIndices(s, high);
    PruneShort(s, now);
    var p := Prune(s, now);
    if |s.certs| == 2 && Expired(s.certs[0], s.current, now) {
      assert p.certs == [s.certs[1]];
    } else {
      assert p.certs == s.certs;
    }
    SoundIndices(p, high);
  }

  predicate SameIssuer(p: State, s: State) {
    CurrentIndex(p) < |p.certs| && CurrentIndex(s) < |s.certs| && Issuer(p) == Issuer(s)
  }

  // Promotion of the second record over the first.
  lemma PromoteSound(s: State, now: Time, high: Time)
    requires |s.certs| == 2 && s.version == 1 && now <= high
    requires CurrentSound(s.certs[0], s.current, high)
    requires Plain(s.certs[1]) && s.certs[0].generation < s.certs[1].generation && s.certs[1].retiredAt.None?
    requires s.certs[1].cert.notBefore <= high && now + 2 * RETENTION + CLOCK_SKEW <= s.certs[1].cert.notAfter
    ensures CurrentIndex(s) == 0
    ensures Sound(Promote(s, 1, now), high) && Promote(s, 1, now).current == s.certs[1].generation > s.current
  {
  }

  lemma RecoverSound(s: State, changed: bool, now: Time, year: Year, p: Publication, high: Time)
    requires Sound(s, high) && now <= high && CurrentIndex(s) < |s.certs| && Issuer(s).cert.notAfter <= now
    requires |s.certs| == 2 && s.certs[0].retiredAt.Some? ==> now < s.certs[0].retiredAt.value + RETENTION + CLOCK_SKEW
    requires var plan := Recover(s, changed, now, year, p);
             plan.Write? && (plan.state.current != s.current ==> LifeLeft(plan.state, now))
    ensures Sound(Recover(s, changed, now, year, p).state, high)
    ensures Recover(s, changed, now, year, p).state.current >= s.current
  {
    SoundIndices(s, high);
    var current, usable := Issuer(s), Usable(s, PendingIndex(s), now);
    if usable {
      if Recover(s, changed, now, year, p).state.current != s.current {
        PromotedIssuer(s, 1, now);
        PromoteSound(s, now, high);
      }
    } else {
      FreshPending(current, now, year, high);
      var successor := NewPending(current.generation + 1, now, year);
      var next := s.(certs := [current, successor]);
      FreshRecord(current.generation + 1, now, year, high);
      PromoteSound(next, now, high);
    }
  }

  // The promoted record is the issuer of the promoted document.
  lemma PromotedIssuer(s: State, pending: nat, now: Time)
    requires CurrentIndex(s) == 0 && pending == 1 && |s.certs| == 2 && s.certs[0].generation != s.certs[1].generation
    ensures CurrentIndex(Promote(s, pending, now)) == 1
    ensures Issuer(Promote(s, pending, now)).cert == s.certs[1].cert
  {
  }

  // The pending record this caller is about to mark as published, if any.
  predicate Records(s: State, now: Time, p: Publication) {
    && |s.certs| == 2 && s.certs[0].generation == s.current && s.certs[1].publishedAt.None?
    && now < s.certs[0].cert.notAfter && p.configured && p.read == Object(Bundle(s.certs))
  }

  // The caller's clock reading is from before the pending certificate's validity.
  predicate RecordsEarly(s: State, now: Time, p: Publication) {
    Records(s, now, p) && now < s.certs[1].cert.notBefore
  }

  lemma AdvanceSound(s: State, changed: bool, now: Time, p: Publication, high: Time)
    requires Sound(s, high) && now <= high && !RecordsEarly(s, now, p)
    requires CurrentIndex(s) < |s.certs| && PendingIndex(s) < |s.certs| && now < Issuer(s).cert.notAfter
    requires var plan := Advance(s, changed, now, p);
             plan.Write? && (plan.state.current != s.current ==> LifeLeft(plan.state, now))
    ensures Sound(Advance(s, changed, now, p).state, high)
    ensures Advance(s, changed, now, p).state.current >= s.current
  {
    SoundIndices(s, high);
    var pending := s.certs[1];
    var ready := PublicationReady(p, s.certs).ready;
    var records := p.configured && ready && pending.publishedAt.None?;
    var published := pending.(publishedAt := Some(now), activateAt := Some(now + ACTIVATION_LAG));
    var next := if records then s.(certs := s.certs[1 := published]) else s;
    assert PendingSound(next.certs[1], next.certs[0], high);
    if ready && next.certs[1].activateAt.value <= now {
      PromotedIssuer(next, 1, now);
      PromoteSound(next, now, high);
    }
  }

  /** Every document written from a sound one is sound for the raised clock reading, provided a promoted issuer has
      twice the retention plus the skew of life left and no publication is recorded under a reading from before the
      certificate; the current generation never goes back. The reading itself may be of any age. */
  lemma RotateSound(s: State, high: Time, now: Time, year: Year, p: Publication)
    requires Sound(s, high) && !RecordsEarly(s, now, p)
    requires Attempted(Document(s), now, year, p).Write?
    requires var t := Attempted(Document(s), now, year, p).state; t.current != s.current ==> LifeLeft(t, now)
    ensures var t := Attempted(Document(s), now, year, p).state;
            Sound(t, Max(high, now)) && s.current <= t.current
  {
    PruneSound(s, high, now);
    var pruned, raised := Prune(s, now), Max(high, now);
    HigherSound(pruned, high, raised);
    SoundIndices(pruned, high);
    var changed := |pruned.certs| != |s.certs|;
    if Issuer(pruned).cert.notAfter <= now {
      RecoverSound(pruned, changed, now, year, p, raised);
    } else if PendingIndex(pruned) < |pruned.certs| {
      PruneShort(s, now);
      AdvanceSound(pruned, changed, now, p, raised);
    } else if Issuer(pruned).cert.notAfter <= now + RETENTION {
      FreshPending(Issuer(pruned), now, year, raised);
      assert |pruned.certs| == 1;
    }
  }

  lemma BootstrapSound(now: Time, year: Year, p: Publication)
    ensures Attempted(Missing, now, year, p).Write? && Sound(Attempted(Missing, now, year, p).state, now)
    ensures Attempted(Missing, now, year, p).state.current == 1
  {
    FreshRecord(1, now, year, now);
  }

  // ---- Exactly when a write overflows ----

  // A retired record outlives the pruning while its valid successor already needs a successor.
  predicate Overflows(s: State, now: Time) {
    && |s.certs| == 2 && s.certs[0].retiredAt.Some? && s.certs[1].generation == s.current
    && now < s.certs[0].retiredAt.value + RETENTION + CLOCK_SKEW
    && now < s.certs[1].cert.notAfter <= now + RETENTION
  }

  // The shapes validation leaves: at most one other record, retired before or pending after the current one.
  lemma AcceptedShape(s: State, now: Time)
    requires Accepts(s, now, false)
    ensures CurrentIndex(s) < |s.certs|
    ensures |s.certs| == 2 ==>
              || (s.certs[1].generation == s.current && s.certs[0].retiredAt.Some? && s.certs[0].activateAt.None?)
              || (s.certs[0].generation == s.current && s.certs[1].activateAt.Some? && s.certs[1].retiredAt.None?)
    ensures Issuer(s).activateAt.None? && Issuer(s).retiredAt.None?
  {
    assert RecordOk(s, 0, now, false);
    assert |s.certs| == 2 ==> RecordOk(s, 1, now, false);
  }

  /** From any accepted document, the next write has a third record if and only if the caller's document overflows,
      and a three-record document is refused by every caller at every time. */
  lemma WriteOverflowsExactly(s: State, now: Time, year: Year, p: Publication)
    requires Accepts(s, now, false)
    ensures Overflows(s, now) ==> Attempted(Document(s), now, year, p).Write?
    ensures Attempted(Document(s), now, year, p).Write? ==>
              var t := Attempted(Document(s), now, year, p).state;
              && (|t.certs| == 3 <==> Overflows(s, now)) && |t.certs| <= 3
              && (|t.certs| == 3 ==> forall later: Time, issuing: bool :: !Accepts(t, later, issuing))
  {
    PrunedShape(s, now);
    var pruned := Prune(s, now);
    var plan := Attempted(Document(s), now, year, p);
    assert plan == Rotate(s, now, year, p);
    var changed := |pruned.certs| != |s.certs|;
    if Issuer(pruned).cert.notAfter <= now {
      RecoverLength(pruned, changed, now, year, p);
    } else if PendingIndex(pruned) < |pruned.certs| {
      AdvanceLength(pruned, changed, now, p);
    }
  }

  lemma RecoverLength(s: State, changed: bool, now: Time, year: Year, p: Publication)
    requires CurrentIndex(s) < |s.certs| <= 2
    ensures Recover(s, changed, now, year, p).Write? ==> |Recover(s, changed, now, year, p).state.certs| <= 2
  {
  }

  lemma AdvanceLength(s: State, changed: bool, now: Time, p: Publication)
    requires CurrentIndex(s) < |s.certs| <= 2 && PendingIndex(s) < |s.certs|
    ensures Advance(s, changed, now, p).Write? ==> |Advance(s, changed, now, p).state.certs| <= 2
  {
  }

  // What pruning leaves of an accepted document, and when a retired record survives beside the current one.
  lemma PrunedShape(s: State, now: Time)
    requires Accepts(s, now, false)
    ensures var pruned := Prune(s, now);
            && CurrentIndex(s) < |s.certs| <= 2 && CurrentIndex(pruned) < |pruned.certs| <= |s.certs|
            && Issuer(pruned) == Issuer(s)
            && (PendingIndex(pruned) < |pruned.certs| ==>
                  |s.certs| == 2 && pruned.certs == s.certs && PendingIndex(s) == 1 && CurrentIndex(s) == 0)
            && (PendingIndex(pruned) == |pruned.certs| == 2 <==>
                  |s.certs| == 2 && s.certs[0].retiredAt.Some? && s.certs[1].generation == s.current
                  && now < s.certs[0].retiredAt.value + RETENTION + CLOCK_SKEW)
            && (|s.certs| == 2 && s.certs[1].generation == s.current ==> Issuer(s) == s.certs[1])
  {
    AcceptedShape(s, now);
    PruneShort(s, now);
    PruneKeepsCurrent(s, now);
    assert RecordOk(s, 0, now, false);
    assert |s.certs| == 2 ==> RecordOk(s, 1, now, false);
    var pruned := Prune(s, now);
    if |pruned.certs| == |s.certs| {
      assert pruned.certs == s.certs;
    } else {
      assert pruned.certs == [s.certs[1]];
    }
  }

  // ---- What gates a promotion ----

  lemma BundleOfPromoted(s: State, pending: nat, now: Time)
    requires CurrentIndex(s) < |s.certs| && pending < |s.certs|
    ensures Bundle(Promote(s, pending, now).certs) == Bundle(s.certs)
  {
  }

  /** With publication configured, a generation becomes current only after the external object was read back equal to
      the whole new document's bundle, old issuer included; while the old issuer is still valid this also waits
      ten minutes from the recorded publication. */
  lemma PromotionIsGated(s: State, now: Time, year: Year, p: Publication)
    requires Accepts(s, now, false) && p.configured
    requires Attempted(Document(s), now, year, p).Write?
             && Attempted(Document(s), now, year, p).state.current != s.current
    ensures var t := Attempted(Document(s), now, year, p).state;
            && p.read == Object(Bundle(t.certs))
            && CurrentIndex(s) < |s.certs| && Issuer(s).cert in Bundle(t.certs)
            && CurrentIndex(t) < |t.certs| && Issuer(t).cert in Bundle(t.certs)
            && (now < Issuer(s).cert.notAfter ==>
                  exists r :: r in s.certs && r.generation == t.current && r.publishedAt.Some?
                    && r.publishedAt.value + ACTIVATION_LAG <= now)
            && (Issuer(s).cert.notAfter <= now ==> p.publishes)
  {
    PrunedShape(s, now);
    var pruned := Prune(s, now);
    var plan := Attempted(Document(s), now, year, p);
    assert plan == Rotate(s, now, year, p);
    if Issuer(pruned).cert.notAfter <= now {
      assert PendingIndex(pruned) < |pruned.certs| ==> PendingIndex(pruned) != CurrentIndex(pruned);
      RecoveryGate(pruned, |pruned.certs| != |s.certs|, now, year, p);
    } else {
      assert RecordOk(s, 1, now, false);
      AdvanceGate(s, now, p);
    }
  }

  lemma RecoveryGate(s: State, changed: bool, now: Time, year: Year, p: Publication)
    requires CurrentIndex(s) < |s.certs| && p.configured && |s.certs| <= 2 && Issuer(s).cert.notAfter <= now
    requires PendingIndex(s) < |s.certs| ==> PendingIndex(s) != CurrentIndex(s)
    requires Recover(s, changed, now, year, p).Write? && Recover(s, changed, now, year, p).state.current != s.current
    ensures var t := Recover(s, changed, now, year, p).state;
            && p.publishes && p.read == Object(Bundle(t.certs)) && Issuer(s).cert in Bundle(t.certs)
            && CurrentIndex(t) < |t.certs| && Issuer(t).cert in Bundle(t.certs)
  {
    var current, usable := Issuer(s), Usable(s, PendingIndex(s), now);
    var certs := if usable then s.certs else [current, NewPending(current.generation + 1, now, year)];
    var pending := if usable then PendingIndex(s) else 1;
    var next := s.(certs := certs);
    assert !usable ==> certs[0].generation == s.current;
    BundleOfPromoted(next, pending, now);
    var t := Promote(next, pending, now);
    assert Bundle(t.certs)[CurrentIndex(next)] == current.cert;
    assert t.certs[pending].generation == t.current;
    assert Bundle(t.certs)[CurrentIndex(t)] == Issuer(t).cert;
  }

  lemma AdvanceGate(s: State, now: Time, p: Publication)
    requires |s.certs| == 2 && CurrentIndex(s) == 0 && PendingIndex(s) == 1 && p.configured
    requires s.certs[1].activateAt == Some(ExpectedActivation(s.certs[1]))
    requires Advance(s, false, now, p).Write? && Advance(s, false, now, p).state.current != s.current
    ensures var t := Advance(s, false, now, p).state;
            && p.read == Object(Bundle(t.certs)) && Issuer(s).cert in Bundle(t.certs)
            && CurrentIndex(t) < |t.certs| && Issuer(t).cert in Bundle(t.certs)
            && s.certs[1].generation == t.current
            && s.certs[1].publishedAt.Some? && s.certs[1].publishedAt.value + ACTIVATION_LAG <= now
  {
    BundleOfPromoted(s, 1, now);
    var t := Promote(s, 1, now);
    assert Bundle(t.certs)[0] == s.certs[0].cert;
    assert t.certs[1].generation == t.current;
    assert Bundle(t.certs)[CurrentIndex(t)] == Issuer(t).cert;
  }
}
