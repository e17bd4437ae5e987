// The ports one probe looks up, and exactly when it looks one up twice.
module DatapathProbes {
  import opened Net
  import opened Datapath
  import opened DatapathFlows
  import opened Sorting

  // One lookup of the probe: its port, and whether the key was absent and its insert refused.
  datatype Look = Look(port: Word, refused: bool)

  function PortOf(look: Look): Word { look.port }

  // The lookups of `Probe`, attempt by attempt.
  function Looks(s: State, flow: FlowKey, hash: U32, backend: BackendValue, attempt: nat, port: Word,
                 adversary: Adversary)
    : seq<Look>
    decreases PROBES - attempt
  {
    if attempt >= PROBES then []
    else
      var key := ReplyKey(ForwardValue(backend.address, backend.port, port), s.tables.node, flow.protocol);
      var s0 := Evict(s, adversary(ProbeOp(attempt, 0)));
      if key in s0.reverse then
        [Look(port, false)]
        + if Matches(s0.reverse[key], flow) then []
          else Looks(s0, flow, hash, backend, attempt + 1, ProbePort(hash, attempt + 1), adversary)
      else
        var e := adversary(ProbeOp(attempt, 1));
        [Look(port, e.refuse)]
        + if e.refuse then Looks(Evict(s0, e), flow, hash, backend, attempt + 1, port, adversary) else []
  }

  // A probe ends within its bound, and the value it settles on is the last one it looked up.
  lemma {:induction false} ProbeEndsAtLastLook(s: State, flow: FlowKey, hash: U32, backend: BackendValue, attempt: nat,
                                               port: Word, adversary: Adversary)
    requires attempt <= PROBES
    ensures var looks := Looks(s, flow, hash, backend, attempt, port, adversary);
            var probed := Probe(s, flow, hash, backend, attempt, port, adversary);
            && |looks| <= PROBES - attempt
            && (probed.Finished? && probed.forward.Some? ==>
                  && looks != []
                  && probed.forward.value == ForwardValue(backend.address, backend.port, looks[|looks| - 1].port))
    decreases PROBES - attempt
  {
    if attempt < PROBES {
      var key := ReplyKey(ForwardValue(backend.address, backend.port, port), s.tables.node, flow.protocol);
      var s0 := Evict(s, adversary(ProbeOp(attempt, 0)));
      if key in s0.reverse {
        ProbeEndsAtLastLook(s0, flow, hash, backend, attempt + 1, ProbePort(hash, attempt + 1), adversary);
      } else {
        ProbeEndsAtLastLook(Evict(s0, adversary(ProbeOp(attempt, 1))), flow, hash, backend, attempt + 1, port,
                            adversary);
      }
    }
  }

  // Until a refusal, lookup i is position attempt + i.
  lemma {:induction false} LooksFollowPositions(s: State, flow: FlowKey, hash: U32, backend: BackendValue, attempt: nat,
                                                adversary: Adversary, i: nat)
    requires attempt <= PROBES
    requires var looks := Looks(s, flow, hash, backend, attempt, ProbePort(hash, attempt), adversary);
             i < |looks| && forall j :: 0 <= j < i ==> !looks[j].refused
    ensures Looks(s, flow, hash, backend, attempt, ProbePort(hash, attempt), adversary)[i].port
            == ProbePort(hash, attempt + i)
    decreases PROBES - attempt
  {
    if i > 0 {
      var looks := Looks(s, flow, hash, backend, attempt, ProbePort(hash, attempt), adversary);
      var s0 := Evict(s, adversary(ProbeOp(attempt, 0)));
      var rest := Looks(s0, flow, hash, backend, attempt + 1, ProbePort(hash, attempt + 1), adversary);
      assert !looks[0].refused;
      assert looks == [looks[0]] + rest;
      assert forall j :: 0 <= j < i - 1 ==> rest[j] == looks[j + 1];
      LooksFollowPositions(s0, flow, hash, backend, attempt + 1, adversary, i - 1);
    }
  }

  // A refused insert does not advance the port.
  lemma {:induction false} RefusalRepeats(s: State, flow: FlowKey, hash: U32, backend: BackendValue, attempt: nat,
                                          port: Word, adversary: Adversary, i: nat)
    requires attempt <= PROBES
    requires var looks := Looks(s, flow, hash, backend, attempt, port, adversary); i + 1 < |looks| && looks[i].refused
    ensures var looks := Looks(s, flow, hash, backend, attempt, port, adversary); looks[i + 1].port == looks[i].port
    decreases PROBES - attempt
  {
    var looks := Looks(s, flow, hash, backend, attempt, port, adversary);
    var key := ReplyKey(ForwardValue(backend.address, backend.port, port), s.tables.node, flow.protocol);
    var s0 := Evict(s, adversary(ProbeOp(attempt, 0)));
    if key in s0.reverse {
      assert looks == [looks[0]] + Looks(s0, flow, hash, backend, attempt + 1, ProbePort(hash, attempt + 1), adversary);
      RefusalRepeats(s0, flow, hash, backend, attempt + 1, ProbePort(hash, attempt + 1), adversary, i - 1);
    } else {
      var s1 := Evict(s0, adversary(ProbeOp(attempt, 1)));
      assert looks == [looks[0]] + Looks(s1, flow, hash, backend, attempt + 1, port, adversary);
      if i > 0 {
        RefusalRepeats(s1, flow, hash, backend, attempt + 1, port, adversary, i - 1);
      }
    }
  }

  lemma PositionsDistinct(looks: seq<Look>, hash: U32)
    requires |looks| <= PROBES && forall i: nat :: i < |looks| ==> looks[i].port == ProbePort(hash, i)
    ensures Distinct(Map(looks, PortOf))
  {
    var ports := Map(looks, PortOf);
    forall i, j | 0 <= i < j < |ports|
      ensures ports[i] != ports[j]
    {
      ProbePortsDistinct(hash, i, j);
    }
  }

  lemma RepeatIsNotDistinct(looks: seq<Look>, i: nat)
    requires i + 1 < |looks| && looks[i].port == looks[i + 1].port
    ensures !Distinct(Map(looks, PortOf))
  {
    assert Map(looks, PortOf)[i] == Map(looks, PortOf)[i + 1];
  }

  // No insert was refused before the last lookup.
  predicate RefusedOnlyLast(looks: seq<Look>) {
    forall i :: 0 <= i < |looks| - 1 ==> !looks[i].refused
  }

  /** The ports a probe looks up are pairwise different if and only if no insert was refused before its last lookup. */
  lemma {:induction false} LookedPortsDistinctExactly(s: State, flow: FlowKey, hash: U32, backend: BackendValue,
                                                      adversary: Adversary)
    ensures var looks := Looks(s, flow, hash, backend, 0, ProbePort(hash, 0), adversary);
            Distinct(Map(looks, PortOf)) <==> RefusedOnlyLast(looks)
  {
    var looks := Looks(s, flow, hash, backend, 0, ProbePort(hash, 0), adversary);
    ProbeEndsAtLastLook(s, flow, hash, backend, 0, ProbePort(hash, 0), adversary);
    if RefusedOnlyLast(looks) {
      forall i: nat | i < |looks|
        ensures looks[i].port == ProbePort(hash, i)
      {
        LooksFollowPositions(s, flow, hash, backend, 0, adversary, i);
      }
      PositionsDistinct(looks, hash);
    } else {
      var i: nat :| i < |looks| - 1 && looks[i].refused;
      RefusalRepeats(s, flow, hash, backend, 0, ProbePort(hash, 0), adversary, i);
      RepeatIsNotDistinct(looks, i);
    }
  }

  /** With empty flow maps and only the first insert refused, the probe looks up one port twice. */
  lemma {:induction false} RefusedInsertIsRetried(tables: Tables, flow: FlowKey, hash: U32, backend: BackendValue)
    ensures var once: Adversary := i => Interference({}, {}, i == ProbeOp(0, 1));
            Looks(State(tables, map[], map[]), flow, hash, backend, 0, ProbePort(hash, 0), once)
            == [Look(ProbePort(hash, 0), true), Look(ProbePort(hash, 0), false)]
  {
    var once: Adversary := i => Interference({}, {}, i == ProbeOp(0, 1));
    var s := State(tables, map[], map[]);
    assert Evict(s, once(ProbeOp(0, 0))) == s && Evict(s, once(ProbeOp(0, 1))) == s
           && Evict(s, once(ProbeOp(1, 0))) == s;
    assert Looks(s, flow, hash, backend, 1, ProbePort(hash, 0), once) == [Look(ProbePort(hash, 0), false)];
  }
}
