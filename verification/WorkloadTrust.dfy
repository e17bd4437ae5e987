// Whole runs of the workload CA: many callers commit, install and issue in any order, each under a clock reading that
// may be of any age by the time its step takes effect.
module WorkloadTrust {
  import opened Net
  import opened Workload
  import opened WorkloadRotation
  import opened WorkloadAcceptance

  // `high` is the highest clock reading so far; `retired` remembers when each issuer was retired.
  datatype World = World(durable: Body, high: Time, retired: map<Certificate, Time>, caches: map<string, Certificate>,
                         leaves: set<Leaf>)

  // A commit is an attempt whose conditional write landed; attempts that lose leave no trace.
  datatype Event =
    | Commit(now: Time, year: Year, publication: Publication)
    | Install(node: string, now: Time)
    | Issue(node: string, now: Time)
    | Observe(now: Time)

  function Start(now: Time): World {
    World(Missing, now, map[], map[], {})
  }

  function Planned(w: World, e: Event): Plan
    requires e.Commit?
  {
    Attempted(w.durable, e.now, e.year, e.publication)
  }

  predicate Promotes(w: World, e: Event)
    requires e.Commit?
  {
    Planned(w, e).Write? && w.durable.Document? && Planned(w, e).state.current != w.durable.state.current
  }

  // What the code itself demands.
  predicate Enabled(w: World, e: Event) {
    match e
    case Commit(_, _, _) => true
    case Install(_, now) => w.durable.Document? && Accepts(w.durable.state, now, true)
    case Issue(node, now) => node in w.caches && IssuedAt(w.caches[node], now).Some?
    case Observe(_) => true
  }

  function Step(w: World, e: Event): World
    requires Enabled(w, e)
  {
    var raised := w.(high := Max(w.high, e.now));
    match e
    case Commit(now, _, _) =>
      if !Planned(w, e).Write? then raised
      else
        var t := Planned(w, e).state;
        var retired := if Promotes(w, e) && CurrentIndex(w.durable.state) < |w.durable.state.certs| then
                         w.retired[Issuer(w.durable.state).cert := now]
                       else w.retired;
        raised.(durable := Document(t), retired := retired)
    case Install(node, _) =>
      raised.(caches := w.caches[node := w.durable.state.certs[CurrentIndex(w.durable.state)].cert])
    case Issue(node, now) => raised.(leaves := w.leaves + {IssuedAt(w.caches[node], now).value})
    case Observe(_) => raised
  }

  predicate Run(w: World, events: seq<Event>)
    decreases |events|
  {
    events == [] || (Enabled(w, events[0]) && Run(Step(w, events[0]), events[1..]))
  }

  function After(w: World, events: seq<Event>): World
    requires Run(w, events)
    decreases |events|
  {
    if events == [] then w else After(Step(w, events[0]), events[1..])
  }

  // ---- Which runs leave an accepted document ----

  // A commit that overflows the document or misrecords a publication.
  predicate Harms(w: World, e: Event) {
    && e.Commit? && w.durable.Document? && Accepts(w.durable.state, e.now, false)
    && Harmful(w.durable.state, e.now, e.publication)
  }

  predicate Harmless(w: World, events: seq<Event>)
    requires Run(w, events)
    decreases |events|
  {
    events == [] || (!Harms(w, events[0]) && Harmless(Step(w, events[0]), events[1..]))
  }

  // A document every caller within the skew of the highest reading accepts.
  predicate Current(w: World) {
    w.durable.Document? ==> Accepts(w.durable.state, w.high - CLOCK_SKEW, false)
  }

  predicate NoGarbage(w: World) {
    w.durable.Missing? || w.durable.Document?
  }

  lemma BootstrapAccepted(now: Time, year: Year, p: Publication)
    ensures Accepts(Attempted(Missing, now, year, p).state, now - CLOCK_SKEW, false)
  {
    AcceptsOne(Attempted(Missing, now, year, p).state, now - CLOCK_SKEW);
  }

  lemma BootstrapDecides(w: World, e: Event)
    requires e.Commit? && w.durable.Missing? && Current(w)
    ensures NoGarbage(Step(w, e)) && !Harms(w, e) && Current(Step(w, e))
  {
    BootstrapAccepted(e.now, e.year, e.publication);
    AcceptedLater(Step(w, e).durable.state, e.now - CLOCK_SKEW, Step(w, e).high - CLOCK_SKEW);
  }

  lemma CommitDecides(w: World, e: Event)
    requires e.Commit? && NoGarbage(w) && Current(w)
    ensures NoGarbage(Step(w, e)) && (Harms(w, e) ==> Step(w, e).durable.Document? && Dead(Step(w, e).durable.state))
    ensures !Harms(w, e) ==> Current(Step(w, e))
  {
    var v := Step(w, e);
    if w.durable.Missing? {
      BootstrapDecides(w, e);
    } else if Accepts(w.durable.state, e.now, false) {
      if Harms(w, e) {
        HarmfulWrites(w.durable.state, e.now, e.year, e.publication);
      }
      if Planned(w, e).Write? {
        WriteAcceptedExactly(w.durable.state, w.high - CLOCK_SKEW, e.now, e.year, e.publication, v.high - CLOCK_SKEW);
      } else {
        AcceptedLater(w.durable.state, w.high - CLOCK_SKEW, v.high - CLOCK_SKEW);
      }
    } else {
      AcceptedLater(w.durable.state, w.high - CLOCK_SKEW, v.high - CLOCK_SKEW);
    }
  }

  lemma StepDecides(w: World, e: Event)
    requires Enabled(w, e) && NoGarbage(w) && Current(w)
    ensures NoGarbage(Step(w, e)) && (Harms(w, e) ==> Step(w, e).durable.Document? && Dead(Step(w, e).durable.state))
    ensures !Harms(w, e) ==> Current(Step(w, e))
  {
    if e.Commit? {
      CommitDecides(w, e);
    } else if w.durable.Document? {
      AcceptedLater(w.durable.state, w.high - CLOCK_SKEW, Step(w, e).high - CLOCK_SKEW);
    }
  }

  // No caller ever writes over a refused document.
  lemma {:induction false} DeadStays(w: World, events: seq<Event>)
    requires Run(w, events) && w.durable.Document? && Dead(w.durable.state)
    ensures After(w, events).durable == w.durable
    decreases |events|
  {
    if events != [] {
      DeadStays(Step(w, events[0]), events[1..]);
    }
  }

  lemma {:induction false} RunDecides(w: World, events: seq<Event>)
    requires Run(w, events) && NoGarbage(w) && Current(w)
    ensures NoGarbage(After(w, events))
    ensures Harmless(w, events) ==> Current(After(w, events))
    ensures !Harmless(w, events) ==> After(w, events).durable.Document? && Dead(After(w, events).durable.state)
    decreases |events|
  {
    if events != [] {
      StepDecides(w, events[0]);
      if Harms(w, events[0]) {
        DeadStays(Step(w, events[0]), events[1..]);
      } else {
        RunDecides(Step(w, events[0]), events[1..]);
      }
    }
  }

  /** In every run, whatever the ages of the clock readings, the durable document is accepted by every caller within the
      skew of the highest reading exactly when no commit overflowed it or misrecorded a publication; otherwise every
      caller refuses it for ever. An accepted document has one or two records with rising generations. */
  lemma {:induction false} EveryDocumentAccepted(start: Time, events: seq<Event>, now: Time)
    requires Run(Start(start), events) && After(Start(start), events).durable.Document?
    requires After(Start(start), events).high - CLOCK_SKEW <= now
    ensures var s := After(Start(start), events).durable.state;
            && (Accepts(s, now, false) <==> Harmless(Start(start), events))
            && (!Harmless(Start(start), events) ==> Dead(s))
            && (Harmless(Start(start), events) ==>
                  1 <= |s.certs| <= 2 && (|s.certs| == 2 ==> s.certs[0].generation < s.certs[1].generation))
  {
    RunDecides(Start(start), events);
    var w := After(Start(start), events);
    if Harmless(Start(start), events) {
      AcceptedLater(w.durable.state, w.high - CLOCK_SKEW, now);
      if |w.durable.state.certs| == 2 {
        AcceptsTwo(w.durable.state, now, false);
      }
    }
  }

  // ---- The current generation never goes back ----

  lemma RecoverRises(s: State, changed: bool, now: Time, year: Year, p: Publication)
    requires CurrentIndex(s) < |s.certs| && Recover(s, changed, now, year, p).Write?
    requires PendingIndex(s) < |s.certs| ==> s.current <= s.certs[PendingIndex(s)].generation
    ensures s.current <= Recover(s, changed, now, year, p).state.current
  {
  }

  lemma AdvanceRises(s: State, changed: bool, now: Time, p: Publication)
    requires CurrentIndex(s) < |s.certs| && PendingIndex(s) < |s.certs| && Advance(s, changed, now, p).Write?
    requires CurrentIndex(s) != PendingIndex(s) && s.current <= s.certs[PendingIndex(s)].generation
    ensures s.current <= Advance(s, changed, now, p).state.current
  {
  }

  // A pending record is never older than the current one.
  lemma PendingIsYounger(s: State, now: Time)
    requires Accepts(s, now, false)
    ensures var pruned := Prune(s, now);
            && CurrentIndex(pruned) < |pruned.certs| && pruned.current == s.current
            && (PendingIndex(pruned) < |pruned.certs| ==>
                  CurrentIndex(pruned) != PendingIndex(pruned)
                    && s.current <= pruned.certs[PendingIndex(pruned)].generation)
  {
    PrunedShape(s, now);
    if |s.certs| == 2 {
      assert RecordOk(s, 1, now, false);
    }
  }

  lemma RotationRises(s: State, now: Time, year: Year, p: Publication)
    requires Attempted(Document(s), now, year, p).Write?
    ensures s.current <= Attempted(Document(s), now, year, p).state.current
  {
    PendingIsYounger(s, now);
    var pruned, plan := Prune(s, now), Attempted(Document(s), now, year, p);
    assert plan == Rotate(s, now, year, p);
    if Issuer(pruned).cert.notAfter <= now {
      RecoverRises(pruned, |pruned.certs| != |s.certs|, now, year, p);
    } else if PendingIndex(pruned) < |pruned.certs| {
      AdvanceRises(pruned, |pruned.certs| != |s.certs|, now, p);
    }
  }

  /** In every run the durable document never disappears and its current generation never goes back. */
  lemma {:induction false} GenerationNeverFalls(w: World, events: seq<Event>)
    requires Run(w, events) && w.durable.Document?
    ensures After(w, events).durable.Document? && w.durable.state.current <= After(w, events).durable.state.current
    decreases |events|
  {
    if events != [] {
      if events[0].Commit? && Planned(w, events[0]).Write? {
        RotationRises(w.durable.state, events[0].now, events[0].year, events[0].publication);
      }
      GenerationNeverFalls(Step(w, events[0]), events[1..]);
    }
  }

  // ---- The invariant of careful runs ----

  // A promoted issuer has life left and its promotion was decided under a reading at most 29 days old, no publication
  // is recorded under a reading from before the certificate, and no node issues from an issuer more than 29 days after
  // its retirement.
  predicate Careful(w: World, e: Event)
    requires Enabled(w, e)
  {
    match e
    case Commit(now, _, publication) =>
      && (Promotes(w, e) ==> LifeLeft(Planned(w, e).state, now) && w.high - 29 * DAY <= now)
      && (w.durable.Document? ==> !RecordsEarly(w.durable.state, now, publication))
    case Issue(node, now) => w.caches[node] in w.retired ==> now <= w.retired[w.caches[node]] + 29 * DAY
    case _ => true
  }

  predicate CarefulRun(w: World, events: seq<Event>)
    requires Run(w, events)
    decreases |events|
  {
    events == [] || (Careful(w, events[0]) && CarefulRun(Step(w, events[0]), events[1..]))
  }

  ghost predicate RetiredIn(s: State, c: Certificate, at: Time) {
    exists r :: r in s.certs && r.cert == c && r.retiredAt == Some(at)
  }

  // A retired issuer is older than the current one, and is still in the document or past its overlap.
  ghost predicate RetiredTracked(s: State, retired: map<Certificate, Time>, high: Time) {
    forall c :: c in retired ==>
      c.serial < s.current && (RetiredIn(s, c, retired[c]) || retired[c] + RETENTION + CLOCK_SKEW <= high)
  }

  ghost predicate KnownIssuer(s: State, retired: map<Certificate, Time>, c: Certificate)
    requires CurrentIndex(s) < |s.certs|
  {
    c == Issuer(s).cert || c in retired
  }

  // How long a leaf may last, by the standing of its issuer.
  ghost predicate LeafBounded(s: State, retired: map<Certificate, Time>, high: Time, leaf: Leaf)
    requires CurrentIndex(s) < |s.certs|
  {
    || (leaf.issuer == Issuer(s).cert && leaf.notAfter <= high + DAY)
    || (leaf.issuer in retired && leaf.notAfter <= retired[leaf.issuer] + RETENTION)
  }

  ghost predicate Invariant(w: World) {
    match w.durable
    case Missing => w.retired == map[] && w.caches == map[] && w.leaves == {}
    case Document(s) =>
      && Sound(s, w.high) && CurrentIndex(s) < |s.certs|
      && RetiredTracked(s, w.retired, w.high)
      && (forall node :: node in w.caches ==> KnownIssuer(s, w.retired, w.caches[node]))
      && (forall leaf :: leaf in w.leaves ==> LeafBounded(s, w.retired, w.high, leaf))
    case _ => false
  }

  // What one write does to the issuer and to retired records.
  lemma WriteKeepsRecords(s: State, high: Time, now: Time, year: Year, p: Publication)
    requires Sound(s, high) && CurrentIndex(s) < |s.certs| && !RecordsEarly(s, now, p)
    requires Attempted(Document(s), now, year, p).Write?
    requires var t := Attempted(Document(s), now, year, p).state; t.current != s.current ==> LifeLeft(t, now)
    ensures var t := Attempted(Document(s), now, year, p).state;
            && CurrentIndex(t) < |t.certs| && Issuer(t).cert.serial == t.current
            && (t.current == s.current ==> Issuer(t).cert == Issuer(s).cert)
            && (t.current != s.current ==> RetiredIn(t, Issuer(s).cert, now))
            && (forall c, at :: RetiredIn(s, c, at) ==> RetiredIn(t, c, at) || at + RETENTION + CLOCK_SKEW <= now)
  {
    RotateSound(s, high, now, year, p);
    var t := Attempted(Document(s), now, year, p).state;
    SoundIndices(t, Max(high, now));
    forall c, at | RetiredIn(s, c, at)
      ensures RetiredIn(t, c, at) || at + RETENTION + CLOCK_SKEW <= now
    {
      RetiredSurvives(s, high, now, year, p, c, at);
    }
    if t.current != s.current {
      PromotionRetires(s, now, year, p);
    } else {
      IssuerKept(s, now, year, p);
    }
  }

  // A retired record stays in the document until its retention is over.
  lemma RetiredSurvives(s: State, high: Time, now: Time, year: Year, p: Publication, c: Certificate, at: Time)
    requires Sound(s, high) && CurrentIndex(s) < |s.certs|
    requires Attempted(Document(s), now, year, p).Write? && RetiredIn(s, c, at)
    requires var t := Attempted(Document(s), now, year, p).state; t.current != s.current ==> LifeLeft(t, now)
    ensures RetiredIn(Attempted(Document(s), now, year, p).state, c, at) || at + RETENTION + CLOCK_SKEW <= now
  {
    PruneSound(s, high, now);
    PruneShort(s, now);
    SoundIndices(s, high);
    SoundIndices(Prune(s, now), high);
    var r :| r in s.certs && r.cert == c && r.retiredAt == Some(at);
    assert r == s.certs[0];
  }

  lemma PromotionRetires(s: State, now: Time, year: Year, p: Publication)
    requires Accepts(s, now, false) && CurrentIndex(s) < |s.certs|
    requires Attempted(Document(s), now, year, p).Write?
             && Attempted(Document(s), now, year, p).state.current != s.current
    ensures RetiredIn(Attempted(Document(s), now, year, p).state, Issuer(s).cert, now)
  {
    PrunedShape(s, now);
    var pruned, t := Prune(s, now), Attempted(Document(s), now, year, p).state;
    var current := Issuer(pruned);
    if current.cert.notAfter <= now {
      if Usable(pruned, PendingIndex(pruned), now) {
        assert t.certs[0].cert == current.cert && t.certs[0].retiredAt == Some(now);
      } else {
        var next := pruned.(certs := [current, NewPending(current.generation + 1, now, year)]);
        assert CurrentIndex(next) == 0;
        assert t.certs[0].cert == current.cert && t.certs[0].retiredAt == Some(now);
      }
    } else {
      assert t.certs[0].cert == current.cert && t.certs[0].retiredAt == Some(now);
    }
  }

  lemma IssuerKept(s: State, now: Time, year: Year, p: Publication)
    requires Accepts(s, now, false) && CurrentIndex(s) < |s.certs|
    requires Attempted(Document(s), now, year, p).Write?
             && Attempted(Document(s), now, year, p).state.current == s.current
    ensures var t := Attempted(Document(s), now, year, p).state;
            CurrentIndex(t) < |t.certs| && Issuer(t).cert == Issuer(s).cert
  {
    PrunedShape(s, now);
    var pruned, t := Prune(s, now), Attempted(Document(s), now, year, p).state;
    var current := Issuer(pruned);
    if current.cert.notAfter <= now {
      RecoverKeepsIssuer(pruned, |pruned.certs| != |s.certs|, now, year, p);
    } else if PendingIndex(pruned) < |pruned.certs| {
      AdvanceKeepsIssuer(pruned, |pruned.certs| != |s.certs|, now, p);
    } else {
      assert t.certs[CurrentIndex(pruned)] == current;
    }
  }

  lemma RecoverKeepsIssuer(s: State, changed: bool, now: Time, year: Year, p: Publication)
    requires CurrentIndex(s) < |s.certs| <= 2
    requires PendingIndex(s) < |s.certs| ==> s.certs[PendingIndex(s)].generation != s.current
    requires Recover(s, changed, now, year, p).Write? && Recover(s, changed, now, year, p).state.current == s.current
    ensures var t := Recover(s, changed, now, year, p).state;
            CurrentIndex(t) < |t.certs| && Issuer(t).cert == Issuer(s).cert
  {
    var t := Recover(s, changed, now, year, p).state;
    if !Usable(s, PendingIndex(s), now) {
      assert t.certs[0].generation == s.current;
    }
  }

  lemma AdvanceKeepsIssuer(s: State, changed: bool, now: Time, p: Publication)
    requires CurrentIndex(s) == 0 && |s.certs| == 2 && PendingIndex(s) == 1
    requires s.certs[1].generation != s.current
    requires Advance(s, changed, now, p).Write? && Advance(s, changed, now, p).state.current == s.current
    ensures var t := Advance(s, changed, now, p).state;
            CurrentIndex(t) < |t.certs| && Issuer(t).cert == Issuer(s).cert
  {
    var t := Advance(s, changed, now, p).state;
    assert t.certs[0].generation == s.current;
  }

  lemma CommitKeepsInvariant(w: World, e: Event)
    requires e.Commit? && Careful(w, e) && Invariant(w) && Planned(w, e).Write? && w.durable.Document?
    ensures Invariant(Step(w, e))
  {
    var s, now, v := w.durable.state, e.now, Step(w, e);
    RotateSound(s, w.high, now, e.year, e.publication);
    WriteKeepsRecords(s, w.high, now, e.year, e.publication);
    SoundIndices(s, w.high);
    var t := v.durable.state;
    forall c | c in v.retired
      ensures c.serial < t.current && (RetiredIn(t, c, v.retired[c]) || v.retired[c] + RETENTION + CLOCK_SKEW <= v.high)
    {
      if c in w.retired && c != Issuer(s).cert {
        assert RetiredIn(s, c, w.retired[c]) || w.retired[c] + RETENTION + CLOCK_SKEW <= w.high;
      }
    }
    forall leaf | leaf in v.leaves
      ensures LeafBounded(t, v.retired, v.high, leaf)
    {
      assert LeafBounded(s, w.retired, w.high, leaf);
    }
    forall node | node in v.caches
      ensures KnownIssuer(t, v.retired, v.caches[node])
    {
      assert KnownIssuer(s, w.retired, w.caches[node]);
    }
  }

  lemma RaiseKeepsInvariant(w: World, now: Time)
    requires Invariant(w)
    ensures Invariant(w.(high := Max(w.high, now)))
  {
    var v := w.(high := Max(w.high, now));
    if w.durable.Document? {
      HigherSound(w.durable.state, w.high, v.high);
      forall leaf | leaf in v.leaves
        ensures LeafBounded(v.durable.state, v.retired, v.high, leaf)
      {
        assert LeafBounded(w.durable.state, w.retired, w.high, leaf);
      }
    }
  }

  // An issuer that may still issue is in the document.
  lemma IssueKeepsInvariant(w: World, e: Event)
    requires e.Issue? && Enabled(w, e) && Careful(w, e) && Invariant(w)
    ensures Invariant(Step(w, e))
  {
    RaiseKeepsInvariant(w, e.now);
    var s, v, ca := w.durable.state, Step(w, e), w.caches[e.node];
    assert KnownIssuer(s, w.retired, ca);
    forall leaf | leaf in v.leaves
      ensures LeafBounded(s, v.retired, v.high, leaf)
    {
      if leaf in w.leaves {
        assert LeafBounded(s, w.retired, w.high, leaf);
      }
    }
  }

  lemma StepKeepsInvariant(w: World, e: Event)
    requires Enabled(w, e) && Careful(w, e) && Invariant(w)
    ensures Invariant(Step(w, e))
  {
    RaiseKeepsInvariant(w, e.now);
    match e {
      case Commit(now, year, publication) =>
        if Planned(w, e).Write? {
          if w.durable.Document? {
            CommitKeepsInvariant(w, e);
          } else {
            BootstrapSound(now, year, publication);
            HigherSound(Planned(w, e).state, now, Max(w.high, now));
            SoundIndices(Planned(w, e).state, now);
          }
        }
      case Install(node, now) =>
        var v := Step(w, e);
        forall n | n in v.caches
          ensures KnownIssuer(v.durable.state, v.retired, v.caches[n])
        {
        }
      case Issue(_, _) => IssueKeepsInvariant(w, e);
      case Observe(_) =>
    }
  }

  lemma {:induction false} RunKeepsInvariant(w: World, events: seq<Event>)
    requires Invariant(w) && Run(w, events) && CarefulRun(w, events)
    ensures Invariant(After(w, events))
    decreases |events|
  {
    if events != [] {
      StepKeepsInvariant(w, events[0]);
      RunKeepsInvariant(Step(w, events[0]), events[1..]);
    }
  }

  lemma SoundIsHarmless(s: State, high: Time, now: Time, p: Publication)
    requires Sound(s, high) && !RecordsEarly(s, now, p)
    ensures !Harmful(s, now, p)
  {
  }

  /** The provisos of careful runs are enough for an accepted document too. */
  lemma {:induction false} CarefulIsHarmless(w: World, events: seq<Event>)
    requires Invariant(w) && Run(w, events) && CarefulRun(w, events)
    ensures Harmless(w, events)
    decreases |events|
  {
    if events != [] {
      if Harms(w, events[0]) {
        SoundIsHarmless(w.durable.state, w.high, events[0].now, events[0].publication);
      }
      StepKeepsInvariant(w, events[0]);
      CarefulIsHarmless(Step(w, events[0]), events[1..]);
    }
  }

  /** Trust continuity: at every moment of every careful run, the certificate that signed each unexpired leaf
      is in the durable bundle. */
  lemma {:induction false} TrustContinuity(start: Time, events: seq<Event>, leaf: Leaf, now: Time)
    requires Run(Start(start), events) && CarefulRun(Start(start), events)
    requires var w := After(Start(start), events); leaf in w.leaves && w.high - CLOCK_SKEW <= now < leaf.notAfter
    ensures var w := After(Start(start), events);
            w.durable.Document? && leaf.issuer in Bundle(w.durable.state.certs)
  {
    RunKeepsInvariant(Start(start), events);
    var w := After(Start(start), events);
    var s := w.durable.state;
    assert LeafBounded(s, w.retired, w.high, leaf);
    if leaf.issuer == Issuer(s).cert {
      assert Bundle(s.certs)[CurrentIndex(s)] == leaf.issuer;
    } else {
      assert RetiredIn(s, leaf.issuer, w.retired[leaf.issuer]);
      var r :| r in s.certs && r.cert == leaf.issuer;
      var i :| 0 <= i < |s.certs| && s.certs[i] == r;
      assert Bundle(s.certs)[i] == leaf.issuer;
    }
  }
}
