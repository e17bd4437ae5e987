// The durable workload CA: bootstrap, pending, publish, promote, retire, prune and emergency recovery.
module Workload {
  import opened Net

  // Times are nanoseconds; certificates keep whole seconds.
  type Time = int
  const SECOND: Time := 1_000_000_000
  const DAY: Time := 86_400_000_000_000
  const CLOCK_SKEW: Time := 300_000_000_000
  const ACTIVATION_LAG: Time := 600_000_000_000
  const RETENTION: Time := 2_592_000_000_000_000
  const MAX_CAS_RETRIES := 8

  // The parsed public certificate; the serial is the generation it was created for.
  datatype Certificate = Certificate(serial: nat, notBefore: Time, notAfter: Time)

  datatype Record = Record(generation: nat, cert: Certificate, publishedAt: Option<Time>, activateAt: Option<Time>,
                           retiredAt: Option<Time>)

  datatype State = State(version: nat, current: nat, certs: seq<Record>)

  // The durable object as read back: missing, unreadable, undecodable, or a document.
  datatype Body = Missing | Unreadable | Garbage | Document(state: State)

  // The external trust object as read back.
  datatype External = NotFound | ReadError | Object(bundle: seq<Certificate>)

  // One pass over the external object: whether publication is configured, whether publishing succeeds, what is read.
  datatype Publication = Publication(configured: bool, publishes: bool, read: External)

  function Truncate(t: Time): (r: Time)
    ensures t - SECOND < r <= t
  {
    t - t % SECOND
  }

  // A calendar year is 365 or 366 days.
  type Year = y: Time | y == 365 * 86_400_000_000_000 || y == 366 * 86_400_000_000_000 witness 365 * 86_400_000_000_000

  function NewRecord(generation: nat, now: Time, year: Year): Record {
    Record(generation, Certificate(generation, Truncate(now - CLOCK_SKEW), Truncate(now + year)), None, None, None)
  }

  function NewPending(generation: nat, now: Time, year: Year): Record {
    var next := NewRecord(generation, now, year);
    next.(activateAt := Some(next.cert.notBefore + CLOCK_SKEW + ACTIVATION_LAG))
  }

  function Bundle(certs: seq<Record>): (b: seq<Certificate>)
    ensures |b| == |certs| && forall i :: 0 <= i < |certs| ==> b[i] == certs[i].cert
  {
    seq(|certs|, i requires 0 <= i < |certs| => certs[i].cert)
  }

  // ---- Validation ----

  function ExpectedActivation(r: Record): Time {
    match r.publishedAt
    case Some(t) => t + ACTIVATION_LAG
    case None => r.cert.notBefore + CLOCK_SKEW + ACTIVATION_LAG
  }

  predicate LifecycleOk(r: Record, current: nat, now: Time, issuing: bool) {
    && !(r.activateAt.Some? && r.retiredAt.Some?) && !(r.publishedAt.Some? && r.activateAt.None?)
    && if r.generation == current then
         && r.retiredAt.None? && r.activateAt.None? && r.cert.notBefore <= now + CLOCK_SKEW
         && (issuing ==> r.cert.notBefore <= now < r.cert.notAfter)
       else if r.activateAt.Some? then
         && current <= r.generation && r.activateAt.value == ExpectedActivation(r)
         && r.activateAt.value <= r.cert.notAfter
         && (r.publishedAt.Some? ==> r.cert.notBefore <= r.publishedAt.value)
       else r.retiredAt.Some? && r.generation <= current && r.retiredAt.value <= now + CLOCK_SKEW
  }

  predicate RecordOk(s: State, i: nat, now: Time, issuing: bool)
    requires i < |s.certs|
  {
    && s.certs[i].generation != 0 && (i > 0 ==> s.certs[i - 1].generation < s.certs[i].generation)
    && s.certs[i].cert.notBefore < s.certs[i].cert.notAfter
    && LifecycleOk(s.certs[i], s.current, now, issuing)
  }

  // What validateState accepts.
  predicate Accepts(s: State, now: Time, issuing: bool) {
    && s.version == 1 && s.current != 0 && 0 < |s.certs| <= 2
    && (forall i: nat :: i < |s.certs| ==> RecordOk(s, i, now, issuing))
    && exists i: nat :: i < |s.certs| && s.certs[i].generation == s.current
  }

  method ValidateState(s: State, now: Time, issuing: bool) returns (ok: bool)
    ensures ok <==> Accepts(s, now, issuing)
  {
    if s.version != 1 || s.current == 0 || |s.certs| == 0 || |s.certs| > 2 {
      return false;
    }
    var seen: set<nat> := {};
    var found := false;
    for i := 0 to |s.certs|
      invariant forall k: nat :: k < i ==> RecordOk(s, k, now, issuing)
      invariant forall k: nat :: k < i ==> s.certs[k].generation in seen
      invariant forall g :: g in seen ==> i > 0 && g <= s.certs[i - 1].generation
      invariant found <==> exists k: nat :: k < i && s.certs[k].generation == s.current
    {
      var r := s.certs[i];
      assert RecordOk(s, i, now, issuing) ==> r.generation !in seen;
      if r.generation == 0 || r.generation in seen || (i > 0 && s.certs[i - 1].generation >= r.generation) {
        return false;
      }
      seen := seen + {r.generation};
      if r.cert.notAfter <= r.cert.notBefore {
        return false;
      }
      if (r.activateAt.Some? && r.retiredAt.Some?) || (r.publishedAt.Some? && r.activateAt.None?) {
        return false;
      }
      if r.generation == s.current {
        if r.retiredAt.Some? || r.activateAt.Some? || now + CLOCK_SKEW < r.cert.notBefore
           || (issuing && (now < r.cert.notBefore || now >= r.cert.notAfter)) {
          return false;
        }
        found := true;
      } else if r.activateAt.Some? {
        var expected := r.cert.notBefore + CLOCK_SKEW + ACTIVATION_LAG;
        if r.publishedAt.Some? {
          expected := r.publishedAt.value + ACTIVATION_LAG;
        }
        if r.generation < s.current || r.activateAt.value != expected || r.activateAt.value > r.cert.notAfter
           || (r.publishedAt.Some? && r.publishedAt.value < r.cert.notBefore) {
          return false;
        }
      } else if r.retiredAt.None? || r.generation > s.current || r.retiredAt.value > now + CLOCK_SKEW {
        return false;
      }
    }
    ok := found;
  }

  // ---- One rotation step on a valid document ----

  predicate Expired(r: Record, current: nat, now: Time) {
    r.generation != current && r.retiredAt.Some? && r.retiredAt.value + RETENTION + CLOCK_SKEW <= now
  }

  function Kept(certs: seq<Record>, current: nat, now: Time): seq<Record> {
    if certs == [] then []
    else
      var front, last := Kept(certs[..|certs| - 1], current, now), certs[|certs| - 1];
      if Expired(last, current, now) then front else front + [last]
  }

  function Prune(s: State, now: Time): State {
    s.(certs := Kept(s.certs, s.current, now))
  }

  method PruneState(s: State, now: Time) returns (pruned: State, changed: bool)
    ensures pruned == Prune(s, now)
    ensures changed <==> |pruned.certs| != |s.certs|
  {
    var kept: seq<Record> := [];
    changed := false;
    for i := 0 to |s.certs|
      invariant kept == Kept(s.certs[..i], s.current, now)
      invariant |kept| <= i && (changed <==> |kept| != i)
    {
      assert s.certs[..i + 1][..i] == s.certs[..i];
      var r := s.certs[i];
      if r.generation != s.current && r.retiredAt.Some? && r.retiredAt.value + RETENTION + CLOCK_SKEW <= now {
        changed := true;
      } else {
        kept := kept + [r];
      }
    }
    assert s.certs[..|s.certs|] == s.certs;
    pruned := s.(certs := kept);
  }

  // First index satisfying the search, or the length when there is none.
  function CurrentIndex(s: State): (i: nat)
    ensures i <= |s.certs| && (i < |s.certs| ==> s.certs[i].generation == s.current)
    ensures forall k :: 0 <= k < i ==> s.certs[k].generation != s.current
  {
    FirstCurrent(s, 0)
  }

  function FirstCurrent(s: State, from: nat): (i: nat)
    requires from <= |s.certs|
    ensures from <= i <= |s.certs| && (i < |s.certs| ==> s.certs[i].generation == s.current)
    ensures forall k :: from <= k < i ==> s.certs[k].generation != s.current
    decreases |s.certs| - from
  {
    if from == |s.certs| || s.certs[from].generation == s.current then from else FirstCurrent(s, from + 1)
  }

  function PendingIndex(s: State): (i: nat)
    ensures i <= |s.certs| && (i < |s.certs| ==> s.certs[i].activateAt.Some?)
    ensures forall k :: 0 <= k < i ==> s.certs[k].activateAt.None?
  {
    FirstPending(s, 0)
  }

  function FirstPending(s: State, from: nat): (i: nat)
    requires from <= |s.certs|
    ensures from <= i <= |s.certs| && (i < |s.certs| ==> s.certs[i].activateAt.Some?)
    ensures forall k :: from <= k < i ==> s.certs[k].activateAt.None?
    decreases |s.certs| - from
  {
    if from == |s.certs| || s.certs[from].activateAt.Some? then from else FirstPending(s, from + 1)
  }

  // Retires the current issuer and makes the pending one current.
  function Promote(s: State, pending: nat, now: Time): State
    requires CurrentIndex(s) < |s.certs| && pending < |s.certs|
  {
    var retired := s.certs[CurrentIndex(s) := s.certs[CurrentIndex(s)].(retiredAt := Some(now))];
    var certs := retired[pending := retired[pending].(publishedAt := None, activateAt := None)];
    State(s.version, certs[pending].generation, certs)
  }

  datatype Ready = Known(ready: bool) | Unknown

  function PublicationReady(p: Publication, certs: seq<Record>): Ready {
    if !p.configured then Known(true)
    else match p.read
      case NotFound => Known(false)
      case ReadError => Unknown
      case Object(bundle) => Known(bundle == Bundle(certs))
  }

  datatype Plan = Fail | Unchanged | Write(state: State)

  function WriteIf(changed: bool, s: State): Plan {
    if changed then Write(s) else Unchanged
  }

  predicate Usable(s: State, pending: nat, now: Time) {
    pending < |s.certs| && s.certs[pending].cert.notBefore <= now < s.certs[pending].cert.notAfter
  }

  // The current issuer has expired: reuse or create a successor, publish, and promote once visible.
  function Recover(s: State, changed: bool, now: Time, year: Year, p: Publication): Plan
    requires CurrentIndex(s) < |s.certs|
  {
    var current, usable := s.certs[CurrentIndex(s)], Usable(s, PendingIndex(s), now);
    var certs := if usable then s.certs else [current, NewPending(current.generation + 1, now, year)];
    var pending := if usable then PendingIndex(s) else 1;
    var next := s.(certs := certs);
    if p.configured && !p.publishes then Fail
    else
      match PublicationReady(p, certs)
      case Unknown => Fail
      case Known(ready) =>
        assert CurrentIndex(next) < |certs| by {
          assert !usable ==> certs[0].generation == s.current;
        }
        if ready then Write(Promote(next, pending, now)) else WriteIf(changed || !usable, next)
  }

  // A pending issuer exists: record its publication, and promote after the activation time.
  function Advance(s: State, changed: bool, now: Time, p: Publication): Plan
    requires CurrentIndex(s) < |s.certs| && PendingIndex(s) < |s.certs|
  {
    var i := PendingIndex(s);
    match PublicationReady(p, s.certs)
    case Unknown => Fail
    case Known(ready) =>
      var records := p.configured && ready && s.certs[i].publishedAt.None?;
      var next := if records then
                    s.(certs := s.certs[i := s.certs[i].(publishedAt := Some(now),
                                                         activateAt := Some(now + ACTIVATION_LAG))])
                  else s;
      if ready && next.certs[i].activateAt.value <= now then
        assert next.certs[CurrentIndex(s)].generation == s.current;
        Write(Promote(next, i, now))
      else WriteIf(changed || records, next)
  }

  function Rotate(s: State, now: Time, year: Year, p: Publication): Plan
    requires CurrentIndex(Prune(s, now)) < |Prune(s, now).certs|
  {
    var pruned := Prune(s, now);
    var changed := |pruned.certs| != |s.certs|;
    var current := pruned.certs[CurrentIndex(pruned)];
    if current.cert.notAfter <= now then Recover(pruned, changed, now, year, p)
    else if PendingIndex(pruned) < |pruned.certs| then Advance(pruned, changed, now, p)
    else if current.cert.notAfter <= now + RETENTION then
      Write(pruned.(certs := pruned.certs + [NewPending(current.generation + 1, now, year)]))
    else WriteIf(changed, pruned)
  }

  lemma PruneKeepsCurrent(s: State, now: Time)
    requires CurrentIndex(s) < |s.certs|
    ensures CurrentIndex(Prune(s, now)) < |Prune(s, now).certs|
  {
    KeptContains(s.certs, s.current, now, CurrentIndex(s));
    var i :| 0 <= i < |Prune(s, now).certs| && Prune(s, now).certs[i] == s.certs[CurrentIndex(s)];
  }

  lemma {:induction false} KeptContains(certs: seq<Record>, current: nat, now: Time, k: nat)
    requires k < |certs| && !Expired(certs[k], current, now)
    ensures exists i :: 0 <= i < |Kept(certs, current, now)| && Kept(certs, current, now)[i] == certs[k]
    decreases |certs|
  {
    var front := certs[..|certs| - 1];
    if k < |front| {
      KeptContains(front, current, now, k);
      var i :| 0 <= i < |Kept(front, current, now)| && Kept(front, current, now)[i] == front[k];
      assert Kept(certs, current, now)[i] == certs[k];
    } else {
      assert Kept(certs, current, now)[|Kept(front, current, now)|] == certs[k];
    }
  }

  // What one attempt does with what it read.
  function Attempted(body: Body, now: Time, year: Year, p: Publication): Plan {
    match body
    case Missing => Write(State(1, 1, [NewRecord(1, now, year)]))
    case Unreadable => Fail
    case Garbage => Fail
    case Document(s) =>
      if !Accepts(s, now, false) then Fail
      else
        PruneKeepsCurrent(s, now);
        Rotate(s, now, year, p)
  }

  // The step in the source's own form: one document edited in place until it is written.
  method RotateState(original: State, now: Time, year: Year, p: Publication) returns (plan: Plan)
    requires Accepts(original, now, false)
    ensures plan == Attempted(Document(original), now, year, p)
  {
    var state, changed := PruneState(original, now);
    PruneKeepsCurrent(original, now);
    var current, pending := state.certs[CurrentIndex(state)], PendingIndex(state);
    if now >= current.cert.notAfter {
      plan := RecoverState(state, changed, now, year, p);
    } else if pending < |state.certs| {
      plan := AdvanceState(state, changed, now, p);
    } else {
      if current.cert.notAfter <= now + RETENTION {
        var next := NewRecord(current.generation + 1, now, year);
        next := next.(activateAt := Some(next.cert.notBefore + CLOCK_SKEW + ACTIVATION_LAG));
        state := state.(certs := state.certs + [next]);
        changed := true;
      }
      plan := if changed then Write(state) else Unchanged;
    }
  }

  // The current issuer has expired: promote a usable pending one, or make one.
  method RecoverState(original: State, prior: bool, now: Time, year: Year, p: Publication) returns (plan: Plan)
    requires CurrentIndex(original) < |original.certs|
    ensures plan == Recover(original, prior, now, year, p)
  {
    var state, changed := original, prior;
    var current, pending := state.certs[CurrentIndex(state)], PendingIndex(state);
    if pending == |state.certs| || now < state.certs[pending].cert.notBefore
       || now >= state.certs[pending].cert.notAfter {
      var next := NewRecord(current.generation + 1, now, year);
      next := next.(activateAt := Some(next.cert.notBefore + CLOCK_SKEW + ACTIVATION_LAG));
      state := state.(certs := [current, next]);
      assert state.certs[0].generation == state.current;
      pending := 1;
      changed := true;
    }
    if p.configured && !p.publishes {
      return Fail;
    }
    var ready := PublicationReady(p, state.certs);
    if ready.Unknown? {
      return Fail;
    }
    if ready.ready {
      state := Promote(state, pending, now);
      changed := true;
    }
    plan := if changed then Write(state) else Unchanged;
  }

  // A successor is pending: record its publication once, and promote it after its activation time.
  method AdvanceState(original: State, prior: bool, now: Time, p: Publication) returns (plan: Plan)
    requires CurrentIndex(original) < |original.certs| && PendingIndex(original) < |original.certs|
    ensures plan == Advance(original, prior, now, p)
  {
    var state, changed := original, prior;
    var position, pending := CurrentIndex(state), PendingIndex(state);
    var ready := Known(true);
    if p.configured {
      ready := PublicationReady(p, state.certs);
      if ready.Unknown? {
        return Fail;
      }
      if ready.ready && state.certs[pending].publishedAt.None? {
        var published := state.certs[pending].(publishedAt := Some(now), activateAt := Some(now + ACTIVATION_LAG));
        state := state.(certs := state.certs[pending := published]);
        assert state.certs[position].generation == state.current;
        changed := true;
      }
    }
    if ready.ready && now >= state.certs[pending].activateAt.value {
      state := Promote(state, pending, now);
      changed := true;
    }
    plan := if changed then Write(state) else Unchanged;
  }

  // ---- The compare-and-swap loop ----

  datatype Reply = Stored | Conflict | PutError

  // What the environment answers in one attempt.
  datatype Attempt = Attempt(body: Body, year: Year, publication: Publication, reply: Reply)

  // The environment's answers to one bounded loop.
  predicate Bounded(attempts: seq<Attempt>) { |attempts| == MAX_CAS_RETRIES }

  // A conditional write: it may land only on the object that was read.
  datatype Request = Request(expected: Body, state: State)

  // What each attempt decides from what it read.
  function Decisions(attempts: seq<Attempt>, now: Time): (plans: seq<Plan>)
    ensures |plans| == |attempts|
    ensures forall k :: 0 <= k < |plans| ==>
              plans[k] == Attempted(attempts[k].body, now, attempts[k].year, attempts[k].publication)
  {
    seq(|attempts|, k requires 0 <= k < |attempts| =>
      Attempted(attempts[k].body, now, attempts[k].year, attempts[k].publication))
  }

  // The writes issued from attempt k on: a further one only after a conflict.
  function Requests(attempts: seq<Attempt>, plans: seq<Plan>, k: nat): seq<Request>
    requires k <= |attempts| == |plans|
    decreases |attempts| - k
  {
    if k == |attempts| || !plans[k].Write? then []
    else
      [Request(attempts[k].body, plans[k].state)]
      + if attempts[k].reply == Conflict then Requests(attempts, plans, k + 1) else []
  }

  lemma RequestStep(done: seq<Request>, attempts: seq<Attempt>, plans: seq<Plan>, k: nat)
    requires k < |attempts| == |plans| && plans[k].Write?
    ensures done + Requests(attempts, plans, k)
         == done + [Request(attempts[k].body, plans[k].state)]
            + if attempts[k].reply == Conflict then Requests(attempts, plans, k + 1) else []
  {
  }

  // Whether the loop from attempt k on reports success.
  predicate Succeeds(attempts: seq<Attempt>, plans: seq<Plan>, k: nat)
    requires k <= |attempts| == |plans|
    decreases |attempts| - k
  {
    k < |attempts| && match plans[k]
      case Fail => false
      case Unchanged => true
      case Write(_) =>
        attempts[k].reply == Stored || (attempts[k].reply == Conflict && Succeeds(attempts, plans, k + 1))
  }

  lemma {:induction false} RequestsAre(attempts: seq<Attempt>, plans: seq<Plan>, from: nat, i: nat)
    requires from <= |attempts| == |plans| && i < |Requests(attempts, plans, from)|
    ensures from + i < |plans| && plans[from + i].Write?
    ensures Requests(attempts, plans, from)[i] == Request(attempts[from + i].body, plans[from + i].state)
    decreases |attempts| - from
  {
    if i > 0 {
      RequestsAre(attempts, plans, from + 1, i - 1);
    }
  }

  lemma {:induction false} LoopFrom(attempts: seq<Attempt>, plans: seq<Plan>, from: nat)
    requires from <= |attempts| == |plans|
    ensures var n := |Requests(attempts, plans, from)|;
            && from + n <= |attempts|
            && (Succeeds(attempts, plans, from) <==> Ended(attempts, plans, from + n, n > 0))
            && (forall i :: from <= i < from + n - 1 ==> attempts[i].reply == Conflict)
            && ((forall j :: from <= j < |plans| ==> plans[j].Write? && attempts[j].reply == Conflict) ==>
                  n == |attempts| - from)
    decreases |attempts| - from
  {
    if from < |attempts| && plans[from].Write? && attempts[from].reply == Conflict {
      LoopFrom(attempts, plans, from + 1);
    }
  }

  // After the first n attempts wrote, the last write was stored, or it met a conflict and the next attempt had nothing
  // to write.
  predicate Ended(attempts: seq<Attempt>, plans: seq<Plan>, n: nat, wrote: bool)
    requires n <= |attempts| == |plans| && (wrote ==> n > 0)
  {
    || (wrote && attempts[n - 1].reply == Stored)
    || ((wrote ==> attempts[n - 1].reply == Conflict) && n < |plans| && plans[n].Unchanged?)
  }

  /** The loop reports success if and only if its last write was stored, or, every write having met a conflict, the next
      attempt had nothing to write. Each write is conditional on what its own attempt read. If every attempt meets a
      conflict the loop gives up after eight writes. */
  lemma {:induction false} LoopExactly(attempts: seq<Attempt>, plans: seq<Plan>)
    requires |attempts| == |plans|
    ensures var requests := Requests(attempts, plans, 0);
            && |requests| <= |attempts|
            && (Succeeds(attempts, plans, 0) <==> Ended(attempts, plans, |requests|, requests != []))
            && (forall i :: 0 <= i < |requests| ==>
                  plans[i].Write? && requests[i] == Request(attempts[i].body, plans[i].state))
            && (forall i :: 0 <= i < |requests| - 1 ==> attempts[i].reply == Conflict)
            && (Bounded(attempts) ==>
                  (forall j :: 0 <= j < |plans| ==> plans[j].Write? && attempts[j].reply == Conflict) ==>
                  |requests| == 8)
  {
    LoopFrom(attempts, plans, 0);
    forall i | 0 <= i < |Requests(attempts, plans, 0)|
      ensures plans[i].Write? && Requests(attempts, plans, 0)[i] == Request(attempts[i].body, plans[i].state)
    {
      RequestsAre(attempts, plans, 0, i);
    }
  }

  method AttemptOnce(body: Body, now: Time, year: Year, p: Publication) returns (plan: Plan)
    ensures plan == Attempted(body, now, year, p)
  {
    match body {
      case Missing => plan := Write(State(1, 1, [NewRecord(1, now, year)]));
      case Unreadable => plan := Fail;
      case Garbage => plan := Fail;
      case Document(s) =>
        var valid := ValidateState(s, now, false);
        if !valid {
          return Fail;
        }
        plan := RotateState(s, now, year, p);
    }
  }

  /** Ensure: at most eight attempts, each conditional on exactly what it read. */
  method Ensure(now: Time, attempts: seq<Attempt>) returns (ok: bool, requests: seq<Request>)
    requires Bounded(attempts)
    ensures ok <==> Succeeds(attempts, Decisions(attempts, now), 0)
    ensures requests == Requests(attempts, Decisions(attempts, now), 0)
  {
    ghost var plans := Decisions(attempts, now);
    requests := [];
    for k := 0 to |attempts|
      invariant Requests(attempts, plans, 0) == requests + Requests(attempts, plans, k)
      invariant Succeeds(attempts, plans, 0) <==> Succeeds(attempts, plans, k)
    {
      var a := attempts[k];
      var plan := AttemptOnce(a.body, now, a.year, a.publication);
      assert plans[k] == plan;
      if !plan.Write? {
        return plan.Unchanged?, requests;
      }
      RequestStep(requests, attempts, plans, k);
      requests := requests + [Request(a.body, plan.state)];
      if a.reply != Conflict {
        return a.reply == Stored, requests;
      }
    }
    ok := false;
  }

  // ---- Issuing ----

  datatype Leaf = Leaf(issuer: Certificate, notBefore: Time, notAfter: Time)

  // A leaf lasts a day, but never longer than its issuer.
  function IssuedAt(ca: Certificate, now: Time): Option<Leaf> {
    if now < ca.notBefore || ca.notAfter <= now then None
    else Some(Leaf(ca, now - CLOCK_SKEW, if ca.notAfter < now + DAY then ca.notAfter else now + DAY))
  }

  // A document accepted at all is accepted for issuing exactly when its issuer is valid now.
  lemma IssuingExactly(s: State, now: Time)
    requires Accepts(s, now, false)
    ensures Accepts(s, now, true) <==>
              exists r :: r in s.certs && r.generation == s.current && r.cert.notBefore <= now < r.cert.notAfter
    ensures Accepts(s, now, true) ==>
              s.certs[CurrentIndex(s)].cert.notBefore <= now < s.certs[CurrentIndex(s)].cert.notAfter
  {
    assert RecordOk(s, 0, now, false);
    if |s.certs| == 2 {
      assert RecordOk(s, 1, now, false);
    }
    var c := CurrentIndex(s);
    assert RecordOk(s, c, now, true) <==> s.certs[c].cert.notBefore <= now < s.certs[c].cert.notAfter;
    assert forall i: nat :: i < |s.certs| && i != c ==> RecordOk(s, i, now, true);
  }

  lemma IssuingIsAccepted(s: State, now: Time)
    requires Accepts(s, now, true)
    ensures Accepts(s, now, false)
  {
    forall i: nat | i < |s.certs|
      ensures RecordOk(s, i, now, false)
    {
      assert RecordOk(s, i, now, true);
    }
  }

  /** One node's authority: the installed issuer, trust bundle, document and revision. */
  class Authority {
    var ca: Option<Certificate>
    var bundle: seq<Certificate>
    var installed: Option<State>
    var revision: nat

    constructor ()
      ensures ca == None && bundle == [] && installed == None && revision == 0
    {
      ca, bundle, installed, revision := None, [], None, 0;
    }

    // The issuer comes from the installed document and its bundle is the whole document's.
    ghost predicate Valid()
      reads this
    {
      && (installed.Some? <==> ca.Some?)
      && (installed.Some? ==>
            && CurrentIndex(installed.value) < |installed.value.certs|
            && ca == Some(installed.value.certs[CurrentIndex(installed.value)].cert)
            && bundle == Bundle(installed.value.certs))
    }

    // Installs the durable document when its issuer is valid now; the revision moves exactly when the document does.
    method Sync(body: Body, now: Time) returns (ok: bool)
      requires Valid()
      modifies this
      ensures Valid()
      ensures ok <==> body.Document? && Accepts(body.state, now, true)
      ensures ok ==> installed == Some(body.state) && ca.Some? && ca.value.notBefore <= now < ca.value.notAfter
      ensures body.Document? && Accepts(body.state, now, false) ==>
                (ok <==> exists r :: r in body.state.certs && r.generation == body.state.current
                                     && r.cert.notBefore <= now < r.cert.notAfter)
      ensures revision == old(revision) + if ok && installed != old(installed) then 1 else 0
      ensures !ok ==> ca == old(ca) && bundle == old(bundle) && installed == old(installed)
    {
      if !body.Document? {
        return false;
      }
      ok := ValidateState(body.state, now, true);
      if ok {
        IssuingIsAccepted(body.state, now);
      }
      if Accepts(body.state, now, false) {
        IssuingExactly(body.state, now);
      }
      if ok {
        if installed != Some(body.state) {
          revision := revision + 1;
          installed := Some(body.state);
        }
        ca := Some(body.state.certs[CurrentIndex(body.state)].cert);
        bundle := Bundle(body.state.certs);
      }
    }

    // A leaf from the installed issuer, shipped with a bundle that contains that issuer.
    method Issue(now: Time) returns (leaf: Option<Leaf>, trust: seq<Certificate>)
      requires Valid()
      ensures leaf == if ca.Some? then IssuedAt(ca.value, now) else None
      ensures leaf.Some? <==> ca.Some? && ca.value.notBefore <= now < ca.value.notAfter
      ensures leaf.Some? ==>
                && leaf.value.issuer == ca.value && leaf.value.notBefore == now - 300_000_000_000
                && (leaf.value.notAfter == now + 86_400_000_000_000 || leaf.value.notAfter == ca.value.notAfter)
                && leaf.value.notAfter <= now + 86_400_000_000_000
      ensures leaf.Some? ==>
                && leaf.value.issuer in trust && trust == bundle
                && now < leaf.value.notAfter <= leaf.value.issuer.notAfter
    {
      leaf, trust := None, [];
      if ca.None? || now < ca.value.notBefore || now >= ca.value.notAfter {
        return;
      }
      var notAfter := now + DAY;
      if ca.value.notAfter < notAfter {
        notAfter := ca.value.notAfter;
      }
      leaf, trust := Some(Leaf(ca.value, now - CLOCK_SKEW, notAfter)), bundle;
      assert bundle[CurrentIndex(installed.value)] == ca.value;
    }
  }
}
