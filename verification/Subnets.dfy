// The two subnet allocators: IPv4 /28s from the end of the VPC for NAT64, IPv6 /64s from the start for NodeGroups.
module Subnets {
  import opened Net
  import opened Ranges
  import opened Sorting
  import opened Allocation

  datatype Outcome<T> = Allocated(ranges: map<string, T>) | BadVPC | BadOwned | NoSpace

  // ---- NAT64: IPv4 ----

  // A VPC of whole /28s; their number.
  predicate Wide(vpc: Prefix4) { vpc.size >= 16 }

  function Count(vpc: Prefix4): nat { vpc.size / 16 }

  // The /28 at a position counted from the end of the VPC; its type says that the 32-bit sum does not wrap.
  function FromEnd(vpc: Prefix4, position: nat): (c: Prefix4)
    requires Wide(vpc) && position < Count(vpc)
    ensures c.size == 16 && c.addr == c.base && c.base % 16 == 0 && Inside(c, vpc)
  {
    var first := vpc.base + (Count(vpc) - 1 - position) * 16;
    Span(first, first, 16)
  }

  lemma FromEndApart(vpc: Prefix4, i: nat, j: nat)
    requires Wide(vpc) && i < Count(vpc) && j < Count(vpc)
    ensures Overlap(FromEnd(vpc, i), FromEnd(vpc, j)) <==> i == j
  {
  }

  // An owned range, None when its text does not parse, must be a /28 of the VPC.
  predicate OwnedOk(vpc: Prefix4, value: Option<Prefix4>) {
    value.Some? && value.value.size == 16 && Contains(vpc, value.value.addr)
  }

  predicate Unused(vpc: Prefix4, taken: seq<Prefix4>, position: nat)
    requires Wide(vpc) && position < Count(vpc)
  {
    forall k :: 0 <= k < |taken| ==> !Overlap(FromEnd(vpc, position), taken[k])
  }

  ghost function Spare(vpc: Prefix4, taken: seq<Prefix4>): set<nat>
    requires Wide(vpc)
  {
    set i: nat | i < Count(vpc) && Unused(vpc, taken, i)
  }

  method IsUnused(vpc: Prefix4, taken: seq<Prefix4>, position: nat) returns (unused: bool)
    requires Wide(vpc) && position < Count(vpc)
    ensures unused <==> Unused(vpc, taken, position)
  {
    var candidate := FromEnd(vpc, position);
    for k := 0 to |taken|
      invariant forall j :: 0 <= j < k ==> !Overlap(candidate, taken[j])
    {
      ClashIsOverlap(candidate, taken[k]);
      if Contains(candidate, taken[k].addr) || Contains(taken[k], candidate.addr) {
        return false;
      }
    }
    unused := true;
  }

  // Scans the VPC downwards from its last /28.
  method FindRange(vpc: Prefix4, taken: seq<Prefix4>) returns (r: Option<nat>)
    requires Wide(vpc)
    ensures r.Some? ==> Least(Spare(vpc, taken), r.value) && r.value < Count(vpc)
    ensures r.None? ==> Spare(vpc, taken) == {}
  {
    var index := Count(vpc);
    while index > 0
      invariant index <= Count(vpc)
      invariant forall i :: i in Spare(vpc, taken) ==> Count(vpc) - index <= i
    {
      var unused := IsUnused(vpc, taken, Count(vpc) - index);
      if unused {
        return Some(Count(vpc) - index);
      }
      index := index - 1;
    }
    r := None;
  }

  lemma SpareStep(vpc: Prefix4, taken: seq<Prefix4>, i: nat)
    requires Wide(vpc) && i < Count(vpc)
    ensures Spare(vpc, taken + [FromEnd(vpc, i)]) == Spare(vpc, taken) - {i}
  {
    var more := taken + [FromEnd(vpc, i)];
    forall h: nat | h < Count(vpc)
      ensures Unused(vpc, more, h) <==> Unused(vpc, taken, h) && h != i
    {
      FromEndApart(vpc, h, i);
      assert forall k :: 0 <= k < |taken| ==> more[k] == taken[k];
      assert more[|taken|] == FromEnd(vpc, i);
    }
  }

  // ---- First pass: owned ranges ----

  ghost predicate KeptAll(owned: map<string, Option<Prefix4>>, names: seq<string>, ranges: map<string, Prefix4>,
                          kept: seq<Prefix4>) {
    && (forall z :: z in ranges <==> z in names && z in owned)
    && (forall z :: z in ranges ==> owned[z].Some? && ranges[z] == Masked(owned[z].value) && ranges[z] in kept)
    && (forall p :: p in kept ==> exists z :: z in ranges && ranges[z] == p)
  }

  method KeepOwned(vpc: Prefix4, owned: map<string, Option<Prefix4>>, names: seq<string>)
    returns (ok: bool, ranges: map<string, Prefix4>, kept: seq<Prefix4>)
    ensures ok <==> forall z :: z in names && z in owned ==> OwnedOk(vpc, owned[z])
    ensures ok ==> KeptAll(owned, names, ranges, kept)
  {
    ranges, kept := map[], [];
    for k := 0 to |names|
      invariant forall z :: z in names[..k] && z in owned ==> OwnedOk(vpc, owned[z])
      invariant KeptAll(owned, names[..k], ranges, kept)
    {
      var zone := names[k];
      assert names[..k + 1] == names[..k] + [zone];
      if zone in owned {
        var value := owned[zone];
        if value.None? || value.value.size != 16 || !Contains(vpc, value.value.addr) {
          return false, ranges, kept;
        }
        KeepStep(owned, names[..k], ranges, kept, zone);
        ranges := ranges[zone := Masked(value.value)];
        kept := kept + [Masked(value.value)];
      }
    }
    assert names[..|names|] == names;
    ok := true;
  }

  lemma KeepStep(owned: map<string, Option<Prefix4>>, names: seq<string>, ranges: map<string, Prefix4>,
                 kept: seq<Prefix4>, zone: string)
    requires KeptAll(owned, names, ranges, kept) && zone in owned && owned[zone].Some?
    ensures var p := Masked(owned[zone].value); KeptAll(owned, names + [zone], ranges[zone := p], kept + [p])
  {
    var p := Masked(owned[zone].value);
    var after := ranges[zone := p];
    forall q | q in kept + [p]
      ensures exists z :: z in after && after[z] == q
    {
      if q == p {
        assert after[zone] == p;
      } else {
        var z :| z in ranges && ranges[z] == q;
        assert after[z] == q;
      }
    }
  }

  // ---- Second pass: new ranges ----

  // The kept ranges and one /28 for each handed position.
  ghost predicate Merged(vpc: Prefix4, kept: map<string, Prefix4>, given: map<string, nat>,
                         ranges: map<string, Prefix4>) {
    && Wide(vpc) && kept.Keys !! given.Keys && ranges.Keys == kept.Keys + given.Keys
    && (forall z :: z in kept ==> ranges[z] == kept[z])
    && (forall z :: z in given ==> given[z] < Count(vpc) && ranges[z] == FromEnd(vpc, given[z]))
  }

  lemma MergedStep(vpc: Prefix4, kept: map<string, Prefix4>, given: map<string, nat>, ranges: map<string, Prefix4>,
                   zone: string, i: nat)
    requires Merged(vpc, kept, given, ranges) && zone !in ranges && i < Count(vpc)
    ensures Merged(vpc, kept, given[zone := i], ranges[zone := FromEnd(vpc, i)])
  {
  }

  lemma SpareAfter(vpc: Prefix4, taken: seq<Prefix4>, free: set<nat>, need: set<string>, given: map<string, nat>,
                   zone: string, i: nat)
    requires Wide(vpc) && i < Count(vpc) && Least(Spare(vpc, taken), i)
    requires Handed(free, need, given, Spare(vpc, taken)) && InOrder(free, given)
    requires zone !in need && forall z :: z in need ==> !StringLess(zone, z)
    ensures Handed(free, need + {zone}, given[zone := i], Spare(vpc, taken + [FromEnd(vpc, i)]))
            && InOrder(free, given[zone := i])
  {
    var spare := Spare(vpc, taken);
    SpareStep(vpc, taken, i);
    HandedStep(free, need, given, spare, zone, i);
    OrderStep(free, need, given, spare, zone, i);
  }

  // The names in need so far, after one more.
  ghost function Joined(need: set<string>, kept: map<string, Prefix4>, zone: string): set<string> {
    need + if zone in kept then {} else {zone}
  }

  lemma JoinedSkip(free: set<nat>, need: set<string>, kept: map<string, Prefix4>, given: map<string, nat>,
                   spare: set<nat>, zone: string)
    requires Handed(free, need, given, spare) && (zone in kept || zone in given)
    ensures Joined(need, kept, zone) == need
  {
  }

  // One name: skipped when it has a range, else given the last free /28.
  method AssignOne(vpc: Prefix4, zone: string, ranges: map<string, Prefix4>, taken: seq<Prefix4>,
                   ghost kept: map<string, Prefix4>, ghost free: set<nat>, ghost need: set<string>,
                   ghost given: map<string, nat>)
    returns (ok: bool, moreRanges: map<string, Prefix4>, moreTaken: seq<Prefix4>, ghost more: map<string, nat>)
    requires Merged(vpc, kept, given, ranges) && Handed(free, need, given, Spare(vpc, taken)) && InOrder(free, given)
    requires forall z :: z in need ==> !StringLess(zone, z)
    ensures !ok ==> zone !in ranges && Spare(vpc, taken) == {}
    ensures ok ==> Merged(vpc, kept, more, moreRanges) && InOrder(free, more)
    ensures ok ==> Handed(free, Joined(need, kept, zone), more, Spare(vpc, moreTaken))
  {
    moreRanges, moreTaken, more := ranges, taken, given;
    if zone in ranges {
      JoinedSkip(free, need, kept, given, Spare(vpc, taken), zone);
      return true, moreRanges, moreTaken, more;
    }
    var found := FindRange(vpc, taken);
    ok := found.Some?;
    if ok {
      var candidate := FromEnd(vpc, found.value);
      assert zone !in need && zone !in kept;
      MergedStep(vpc, kept, given, ranges, zone, found.value);
      SpareAfter(vpc, taken, free, need, given, zone, found.value);
      moreRanges, moreTaken, more := ranges[zone := candidate], taken + [candidate], given[zone := found.value];
    }
  }

  lemma NextName(owned: map<string, Option<Prefix4>>, names: seq<string>, kept: map<string, Prefix4>, n: nat)
    requires n < |names| && Sorted(names, StringLess) && (names[n] in kept <==> names[n] in owned)
    ensures Joined(Needing(owned, names[..n]), kept, names[n]) == Needing(owned, names[..n + 1])
    ensures forall z :: z in Needing(owned, names[..n]) ==> !StringLess(names[n], z)
  {
    NeedingStep(owned, names, n);
    forall z | z in Needing(owned, names[..n])
      ensures !StringLess(names[n], z)
    {
      SortedBefore(names, n, z);
    }
  }

  // All names; short of all of them, the one at `n` found nothing.
  method Assign(vpc: Prefix4, ghost owned: map<string, Option<Prefix4>>, names: seq<string>, kept: map<string, Prefix4>,
                start: seq<Prefix4>)
    returns (n: nat, ranges: map<string, Prefix4>, ghost given: map<string, nat>, ghost spare: set<nat>)
    requires Wide(vpc) && Sorted(names, StringLess) && forall z :: z in kept <==> z in names && z in owned
    ensures n <= |names| && Merged(vpc, kept, given, ranges)
    ensures Handed(Spare(vpc, start), Needing(owned, names[..n]), given, spare) && InOrder(Spare(vpc, start), given)
    ensures n < |names| ==> names[n] !in ranges && names[n] !in owned && spare == {}
  {
    var taken := start;
    ranges, given, n := kept, map[], 0;
    ghost var free := Spare(vpc, start);
    HandedStart(free);
    while n < |names|
      invariant n <= |names| && Merged(vpc, kept, given, ranges)
      invariant Handed(free, Needing(owned, names[..n]), given, Spare(vpc, taken)) && InOrder(free, given)
    {
      NextName(owned, names, kept, n);
      var granted, moreRanges, moreTaken, more :=
        AssignOne(vpc, names[n], ranges, taken, kept, free, Needing(owned, names[..n]), given);
      if !granted {
        spare := Spare(vpc, taken);
        return;
      }
      n, ranges, taken, given := n + 1, moreRanges, moreTaken, more;
    }
    spare := Spare(vpc, taken);
  }

  // ---- The result ----

  // A /28 of the VPC, counted from the end, that meets nothing occupied and nothing owned by a requested zone.
  predicate FreeAt(vpc: Prefix4, occupied: seq<Prefix4>, owned: map<string, Option<Prefix4>>, zones: seq<string>,
                   position: nat)
    requires Wide(vpc) && position < Count(vpc)
  {
    && Unused(vpc, occupied, position)
    && (forall z :: z in zones && z in owned && owned[z].Some? ==>
        !Overlap(FromEnd(vpc, position), Masked(owned[z].value)))
  }

  function Free(vpc: Prefix4, occupied: seq<Prefix4>, owned: map<string, Option<Prefix4>>, zones: seq<string>): set<nat>
    requires Wide(vpc)
  {
    set i: nat | i < Count(vpc) && FreeAt(vpc, occupied, owned, zones, i)
  }

  lemma SpareIsFree(vpc: Prefix4, occupied: seq<Prefix4>, owned: map<string, Option<Prefix4>>, zones: seq<string>,
                    names: seq<string>, kept: map<string, Prefix4>, ranges: seq<Prefix4>, i: nat)
    requires Wide(vpc) && i < Count(vpc) && KeptAll(owned, names, kept, ranges)
    requires forall z :: z in names <==> z in zones
    ensures Unused(vpc, occupied + ranges, i) <==> FreeAt(vpc, occupied, owned, zones, i)
  {
    var start, c := occupied + ranges, FromEnd(vpc, i);
    if FreeAt(vpc, occupied, owned, zones, i) {
      forall k | 0 <= k < |start|
        ensures !Overlap(c, start[k])
      {
        if k >= |occupied| {
          assert start[k] in ranges;
          var z :| z in kept && kept[z] == start[k];
        }
      }
    }
    if Unused(vpc, start, i) {
      assert forall k :: 0 <= k < |occupied| ==> start[k] == occupied[k];
      forall z | z in zones && z in owned && owned[z].Some?
        ensures !Overlap(c, Masked(owned[z].value))
      {
        var k :| 0 <= k < |ranges| && ranges[k] == kept[z];
        assert start[|occupied| + k] == kept[z];
      }
    }
  }

  // A new range: a /28 inside the VPC that meets nothing occupied and no other name's range.
  ghost predicate Fresh(vpc: Prefix4, occupied: seq<Prefix4>, ranges: map<string, Prefix4>, zone: string)
    requires zone in ranges
  {
    && ranges[zone].size == 16 && ranges[zone].addr == ranges[zone].base && Inside(ranges[zone], vpc)
    && (forall k :: 0 <= k < |occupied| ==> !Overlap(ranges[zone], occupied[k]))
    && (forall y :: y in ranges && y != zone ==> !Overlap(ranges[zone], ranges[y]))
  }

  // Every requested name has a range: its own one if owned, else a new one.
  ghost predicate Fulfils(vpc: Prefix4, occupied: seq<Prefix4>, owned: map<string, Option<Prefix4>>, zones: seq<string>,
                          ranges: map<string, Prefix4>) {
    && ranges.Keys == (set z | z in zones)
    && (forall z :: z in zones && z in owned ==> owned[z].Some? && ranges[z] == Masked(owned[z].value))
    && (forall z :: z in Needing(owned, zones) ==> Fresh(vpc, occupied, ranges, z))
  }

  lemma NewRangeFresh(vpc: Prefix4, occupied: seq<Prefix4>, owned: map<string, Option<Prefix4>>, zones: seq<string>,
                      kept: map<string, Prefix4>, given: map<string, nat>, ranges: map<string, Prefix4>, zone: string)
    requires Merged(vpc, kept, given, ranges) && Injective(given) && given.Values <= Free(vpc, occupied, owned, zones)
             && zone in given
    requires forall z :: z in kept ==> z in zones && z in owned && owned[z].Some? && kept[z] == Masked(owned[z].value)
    ensures Fresh(vpc, occupied, ranges, zone)
  {
    var position := given[zone];
    assert position in given.Values && FreeAt(vpc, occupied, owned, zones, position);
    forall y | y in ranges && y != zone
      ensures !Overlap(ranges[zone], ranges[y])
    {
      if y in given {
        FromEndApart(vpc, position, given[y]);
      }
    }
  }

  // Positions, counted from the end, that the new ranges hold.
  ghost predicate Holds(vpc: Prefix4, given: map<string, nat>, ranges: map<string, Prefix4>) {
    Wide(vpc) && forall z :: z in given ==> z in ranges && given[z] < Count(vpc) && ranges[z] == FromEnd(vpc, given[z])
  }

  // What the new positions of a finished allocation satisfy.
  ghost predicate Settled(vpc: Prefix4, occupied: seq<Prefix4>, owned: map<string, Option<Prefix4>>, zones: seq<string>,
                          ranges: map<string, Prefix4>, given: map<string, nat>) {
    && Wide(vpc) && given.Keys == Needing(owned, zones) && given.Values <= Free(vpc, occupied, owned, zones)
    && InOrder(Free(vpc, occupied, owned, zones), given) && Holds(vpc, given, ranges)
  }

  lemma Finish(vpc: Prefix4, occupied: seq<Prefix4>, owned: map<string, Option<Prefix4>>, zones: seq<string>,
               names: seq<string>, kept: map<string, Prefix4>, held: seq<Prefix4>, given: map<string, nat>,
               spare: set<nat>, ranges: map<string, Prefix4>)
    requires Merged(vpc, kept, given, ranges) && KeptAll(owned, names, kept, held)
    requires forall z :: z in names <==> z in zones
    requires Handed(Free(vpc, occupied, owned, zones), Needing(owned, zones), given, spare)
             && InOrder(Free(vpc, occupied, owned, zones), given)
    ensures Fulfils(vpc, occupied, owned, zones, ranges) && Settled(vpc, occupied, owned, zones, ranges, given)
    ensures |Needing(owned, zones)| <= |Free(vpc, occupied, owned, zones)|
  {
    var free := Free(vpc, occupied, owned, zones);
    HandedFits(free, Needing(owned, zones), given, spare);
    NamesCovered(owned, zones, names, kept, held, given, vpc, ranges);
    NewRangesFresh(vpc, occupied, owned, zones, kept, given, ranges);
  }

  lemma NamesCovered(owned: map<string, Option<Prefix4>>, zones: seq<string>, names: seq<string>,
                     kept: map<string, Prefix4>, held: seq<Prefix4>, given: map<string, nat>, vpc: Prefix4,
                     ranges: map<string, Prefix4>)
    requires Merged(vpc, kept, given, ranges) && KeptAll(owned, names, kept, held)
    requires forall z :: z in names <==> z in zones
    requires given.Keys == Needing(owned, zones)
    ensures ranges.Keys == (set z | z in zones)
    ensures forall z :: z in kept ==> z in zones && z in owned && owned[z].Some? && kept[z] == Masked(owned[z].value)
    ensures forall z :: z in zones && z in owned ==> owned[z].Some? && ranges[z] == Masked(owned[z].value)
  {
  }

  lemma NewRangesFresh(vpc: Prefix4, occupied: seq<Prefix4>, owned: map<string, Option<Prefix4>>, zones: seq<string>,
                       kept: map<string, Prefix4>, given: map<string, nat>, ranges: map<string, Prefix4>)
    requires Merged(vpc, kept, given, ranges) && Injective(given) && given.Values <= Free(vpc, occupied, owned, zones)
    requires forall z :: z in kept ==> z in zones && z in owned && owned[z].Some? && kept[z] == Masked(owned[z].value)
    ensures forall z :: z in given ==> Fresh(vpc, occupied, ranges, z)
  {
    forall z | z in given
      ensures Fresh(vpc, occupied, ranges, z)
    {
      NewRangeFresh(vpc, occupied, owned, zones, kept, given, ranges, z);
    }
  }

  lemma FreeAfterFirstPass(vpc: Prefix4, occupied: seq<Prefix4>, owned: map<string, Option<Prefix4>>,
                           zones: seq<string>, names: seq<string>, kept: map<string, Prefix4>, held: seq<Prefix4>)
    requires Wide(vpc) && KeptAll(owned, names, kept, held) && forall z :: z in names <==> z in zones
    ensures Spare(vpc, occupied + held) == Free(vpc, occupied, owned, zones)
  {
    forall i: nat | i < Count(vpc)
      ensures Unused(vpc, occupied + held, i) <==> FreeAt(vpc, occupied, owned, zones, i)
    {
      SpareIsFree(vpc, occupied, owned, zones, names, kept, held, i);
    }
  }

  // Whether every name in need can have a free /28.
  predicate Space(vpc: Prefix4, occupied: seq<Prefix4>, owned: map<string, Option<Prefix4>>, zones: seq<string>)
    requires Wide(vpc)
  {
    |Needing(owned, zones)| <= |Free(vpc, occupied, owned, zones)|
  }

  lemma Exhausted(owned: map<string, Option<Prefix4>>, names: seq<string>, n: nat, free: set<nat>,
                  given: map<string, nat>)
    requires n < |names| && names[n] !in owned && names[n] !in given
             && Handed(free, Needing(owned, names[..n]), given, {})
    ensures |Needing(owned, names)| > |free|
  {
    NeedingStep(owned, names, n);
    HandedOut(free, Needing(owned, names[..n]), given, Needing(owned, names), names[n]);
  }

  // What the end of the second pass decides.
  lemma Conclude(vpc: Prefix4, occupied: seq<Prefix4>, owned: map<string, Option<Prefix4>>, zones: seq<string>,
                 names: seq<string>, kept: map<string, Prefix4>, held: seq<Prefix4>, n: nat,
                 ranges: map<string, Prefix4>, given: map<string, nat>, spare: set<nat>)
    requires n <= |names| && Merged(vpc, kept, given, ranges) && multiset(names) == multiset(zones)
    requires KeptAll(owned, names, kept, held)
    requires Handed(Spare(vpc, occupied + held), Needing(owned, names[..n]), given, spare)
    requires InOrder(Spare(vpc, occupied + held), given)
    requires n < |names| ==> names[n] !in ranges && names[n] !in owned && spare == {}
    ensures Space(vpc, occupied, owned, zones) <==> n == |names|
    ensures n == |names| ==>
              Fulfils(vpc, occupied, owned, zones, ranges) && Settled(vpc, occupied, owned, zones, ranges, given)
  {
    NeedingAll(owned, names, zones);
    FreeAfterFirstPass(vpc, occupied, owned, zones, names, kept, held);
    if n < |names| {
      Exhausted(owned, names, n, Free(vpc, occupied, owned, zones), given);
    } else {
      assert names[..n] == names;
      Finish(vpc, occupied, owned, zones, names, kept, held, given, spare, ranges);
    }
  }

  // The allocation once owned ranges are collected.
  method AssignAll(vpc: Prefix4, occupied: seq<Prefix4>, owned: map<string, Option<Prefix4>>, ghost zones: seq<string>,
                   names: seq<string>, kept: map<string, Prefix4>, held: seq<Prefix4>)
    returns (r: Outcome<Prefix4>, ghost given: map<string, nat>)
    requires Wide(vpc) && Sorted(names, StringLess) && multiset(names) == multiset(zones)
             && KeptAll(owned, names, kept, held)
    ensures r == NoSpace || r.Allocated?
    ensures r.Allocated? <==> Space(vpc, occupied, owned, zones)
    ensures r.Allocated? ==>
              Fulfils(vpc, occupied, owned, zones, r.ranges) && Settled(vpc, occupied, owned, zones, r.ranges, given)
  {
    var n, ranges, handed, spare := Assign(vpc, owned, names, kept, occupied + held);
    given := handed;
    Conclude(vpc, occupied, owned, zones, names, kept, held, n, ranges, given, spare);
    r := if n == |names| then Allocated(ranges) else NoSpace;
  }

  /** Keeps owned ranges, then hands the last free /28s to the remaining names in order; fails exactly for lack of
      space. */
  method AllocateNAT64(vpc: Option<Prefix4>, occupied: seq<Prefix4>, owned: map<string, Option<Prefix4>>,
                       zones: seq<string>)
    returns (r: Outcome<Prefix4>, ghost given: map<string, nat>)
    ensures r == BadVPC <==> vpc.None? || !Wide(vpc.value)
    ensures r == BadOwned <==>
              && vpc.Some? && Wide(vpc.value)
              && exists z :: z in zones && z in owned && !OwnedOk(vpc.value, owned[z])
    ensures r == NoSpace || r.Allocated? ==>
              vpc.Some? && Wide(vpc.value) && (r.Allocated? <==> Space(vpc.value, occupied, owned, zones))
    ensures r.Allocated? ==>
              && Fulfils(vpc.value, occupied, owned, zones, r.ranges)
              && Settled(vpc.value, occupied, owned, zones, r.ranges, given)
  {
    given := map[];
    if vpc.None? || !Wide(vpc.value) {
      return BadVPC, given;
    }
    var names := Sort(zones, StringLess);
    NeedingAll(owned, names, zones);
    var valid, kept, held := KeepOwned(vpc.value, owned, names);
    if !valid {
      return BadOwned, given;
    }
    StringsSort(zones);
    r, given := AssignAll(vpc.value, occupied, owned, zones, names, kept, held);
  }

  lemma {:induction false} StringsSort(zones: seq<string>)
    ensures Sorted(Sort(zones, StringLess), StringLess)
  {
    StringWeakOrder();
    SortSorted(zones, StringLess);
  }

  lemma StringWeakOrder()
    ensures WeakOrder(StringLess)
  {
    forall a, b
      ensures StringLess(a, b) ==> !StringLess(b, a)
    {
      StringOrder(a, b, a);
    }
    forall a, b, c | !StringLess(a, b) && !StringLess(b, c)
      ensures !StringLess(a, c)
    {
      StringOrder(a, b, c);
      StringOrder(b, a, c);
      StringOrder(a, c, b);
      StringOrder(c, b, a);
    }
  }

  // ---- NodeGroups: IPv6 ----

  // A /64 is its address; the VPC's block is a /56, so the eighth byte numbers its /64s.
  function Slot6(ipv6: Address, i: nat): Address
    requires i < 256
  {
    ipv6[7 := i]
  }

  function Free6(ipv6: Address, occupied: set<Address>, from: nat): set<nat> {
    set i: nat | from <= i < 256 && Slot6(ipv6, i) !in occupied
  }

  lemma Slot6Apart(ipv6: Address, i: nat, j: nat)
    requires i < 256 && j < 256
    ensures Slot6(ipv6, i) == Slot6(ipv6, j) <==> i == j
  {
    assert Slot6(ipv6, i)[7] == i && Slot6(ipv6, j)[7] == j;
  }

  // Moves the cursor to the first /64 not taken, and past it.
  method NextFree(ipv6: Address, taken: set<Address>, next: nat) returns (found: Option<nat>, cursor: nat)
    requires next <= 256
    ensures next <= cursor <= 256
    ensures found.Some? ==>
              Least(Free6(ipv6, taken, next), found.value) && found.value < 256 && cursor == found.value + 1
    ensures found.None? ==> Free6(ipv6, taken, next) == {} && cursor == 256
  {
    cursor := next;
    while cursor < 256
      invariant next <= cursor <= 256
      invariant forall i :: i in Free6(ipv6, taken, next) ==> cursor <= i
    {
      var candidate := Slot6(ipv6, cursor);
      cursor := cursor + 1;
      if candidate !in taken {
        return Some(cursor - 1), cursor;
      }
    }
    found := None;
  }

  // The ranges so far: owned ones kept, new ones at free positions below the cursor.
  ghost predicate Placed6(ipv6: Address, occupied: set<Address>, owned: map<string, Address>, names: seq<string>,
                          ranges: map<string, Address>, given: map<string, nat>, cursor: nat) {
    && ranges.Keys == (set z | z in names) && given.Keys == Needing(owned, names) && Injective(given)
    && (forall z :: z in names && z in owned ==> ranges[z] == owned[z])
    && (forall z :: z in given ==>
          given[z] < cursor && given[z] in Free6(ipv6, occupied, 0) && ranges[z] == Slot6(ipv6, given[z]))
  }

  // The shared set grows only below the cursor.
  ghost predicate Marked6(ipv6: Address, occupied: set<Address>, taken: set<Address>, cursor: nat) {
    && cursor <= 256 && occupied <= taken && Free6(ipv6, taken, cursor) == Free6(ipv6, occupied, cursor)
    && forall a :: a in taken && a !in occupied ==> exists i :: 0 <= i < cursor && a == Slot6(ipv6, i)
  }

  lemma MarkedStep(ipv6: Address, occupied: set<Address>, taken: set<Address>, next: nat, i: nat)
    requires Marked6(ipv6, occupied, taken, next) && next <= i < 256
    ensures Marked6(ipv6, occupied, taken + {Slot6(ipv6, i)}, i + 1)
  {
    forall h: nat | i < h < 256
      ensures Slot6(ipv6, h) in taken + {Slot6(ipv6, i)} <==> Slot6(ipv6, h) in occupied
    {
      Slot6Apart(ipv6, h, i);
      assert h in Free6(ipv6, taken, next) <==> h in Free6(ipv6, occupied, next);
    }
    assert Free6(ipv6, taken + {Slot6(ipv6, i)}, i + 1) == Free6(ipv6, occupied, i + 1);
    forall a | a in taken + {Slot6(ipv6, i)} && a !in occupied
      ensures exists h :: 0 <= h < i + 1 && a == Slot6(ipv6, h)
    {
      if a in taken {
        var h :| 0 <= h < next && a == Slot6(ipv6, h);
      }
    }
  }

  lemma MarkedEnd(ipv6: Address, occupied: set<Address>, taken: set<Address>, next: nat)
    requires Marked6(ipv6, occupied, taken, next)
    ensures Marked6(ipv6, occupied, taken, 256)
  {
    assert Free6(ipv6, taken, 256) == Free6(ipv6, occupied, 256);
    forall a | a in taken && a !in occupied
      ensures exists i :: 0 <= i < 256 && a == Slot6(ipv6, i)
    {
      var i :| 0 <= i < next && a == Slot6(ipv6, i);
    }
  }

  lemma PlacedNew(ipv6: Address, occupied: set<Address>, owned: map<string, Address>, names: seq<string>, n: nat,
                  ranges: map<string, Address>, given: map<string, nat>, next: nat, i: nat)
    requires n < |names| && Placed6(ipv6, occupied, owned, names[..n], ranges, given, next) && names[n] !in owned
    requires next <= i < 256 && i in Free6(ipv6, occupied, 0)
    ensures Placed6(ipv6, occupied, owned, names[..n + 1], ranges[names[n] := Slot6(ipv6, i)], given[names[n] := i],
                    i + 1)
  {
    NeedingStep(owned, names, n);
    assert names[..n + 1] == names[..n] + [names[n]];
  }

  lemma PlacedOwned(ipv6: Address, occupied: set<Address>, owned: map<string, Address>, names: seq<string>, n: nat,
                    ranges: map<string, Address>, given: map<string, nat>, next: nat)
    requires n < |names| && Placed6(ipv6, occupied, owned, names[..n], ranges, given, next) && names[n] in owned
    ensures Placed6(ipv6, occupied, owned, names[..n + 1], ranges[names[n] := owned[names[n]]], given, next)
  {
    NeedingStep(owned, names, n);
    assert names[..n + 1] == names[..n] + [names[n]];
  }

  // A name met again after the cursor has run out keeps the range it has.
  lemma PlacedAgain(ipv6: Address, occupied: set<Address>, owned: map<string, Address>, names: seq<string>, n: nat,
                    ranges: map<string, Address>, given: map<string, nat>, next: nat)
    requires n < |names| && next <= 256 && Placed6(ipv6, occupied, owned, names[..n], ranges, given, next)
             && names[n] in given
    ensures Placed6(ipv6, occupied, owned, names[..n + 1], ranges, given, 256)
  {
    NeedingStep(owned, names, n);
    assert names[..n + 1] == names[..n] + [names[n]];
  }

  // Handing out in order, for names that do not repeat.
  ghost predicate Progress6(ipv6: Address, occupied: set<Address>, need: set<string>, given: map<string, nat>,
                            cursor: nat) {
    var free := Free6(ipv6, occupied, 0);
    Handed(free, need, given, Free6(ipv6, occupied, cursor)) && InOrder(free, given)
  }

  lemma ProgressStep(ipv6: Address, occupied: set<Address>, need: set<string>, given: map<string, nat>, next: nat,
                     name: string, i: nat)
    requires Progress6(ipv6, occupied, need, given, next) && name !in need && Least(Free6(ipv6, occupied, next), i)
    requires forall z :: z in need ==> !StringLess(name, z)
    ensures Progress6(ipv6, occupied, need + {name}, given[name := i], i + 1)
  {
    var free, spare := Free6(ipv6, occupied, 0), Free6(ipv6, occupied, next);
    HandedStep(free, need, given, spare, name, i);
    OrderStep(free, need, given, spare, name, i);
    assert spare - {i} == Free6(ipv6, occupied, i + 1);
  }

  lemma ProgressNext(ipv6: Address, occupied: set<Address>, owned: map<string, Address>, names: seq<string>, n: nat,
                     given: map<string, nat>, next: nat, i: nat)
    requires n < |names| && Sorted(names, StringLess) && Distinct(names) && names[n] !in owned
    requires Progress6(ipv6, occupied, Needing(owned, names[..n]), given, next) && Least(Free6(ipv6, occupied, next), i)
    ensures Progress6(ipv6, occupied, Needing(owned, names[..n + 1]), given[names[n] := i], i + 1)
  {
    NeedingStep(owned, names, n);
    forall z | z in Needing(owned, names[..n])
      ensures z != names[n] && !StringLess(names[n], z)
    {
      SortedBefore(names, n, z);
    }
    ProgressStep(ipv6, occupied, Needing(owned, names[..n]), given, next, names[n], i);
  }

  // The loop after n names.
  ghost predicate Pass6(ipv6: Address, occupied: set<Address>, owned: map<string, Address>, names: seq<string>, n: nat,
                        ranges: map<string, Address>, taken: set<Address>, given: map<string, nat>, next: nat) {
    && n <= |names| && Placed6(ipv6, occupied, owned, names[..n], ranges, given, next)
    && Marked6(ipv6, occupied, taken, next)
    && (Distinct(names) ==> Progress6(ipv6, occupied, Needing(owned, names[..n]), given, next))
  }

  lemma Pass6Owned(ipv6: Address, occupied: set<Address>, owned: map<string, Address>, names: seq<string>, n: nat,
                   ranges: map<string, Address>, taken: set<Address>, given: map<string, nat>, next: nat)
    requires n < |names| && Pass6(ipv6, occupied, owned, names, n, ranges, taken, given, next) && names[n] in owned
    ensures Pass6(ipv6, occupied, owned, names, n + 1, ranges[names[n] := owned[names[n]]], taken, given, next)
  {
    NeedingStep(owned, names, n);
    PlacedOwned(ipv6, occupied, owned, names, n, ranges, given, next);
  }

  lemma Pass6New(ipv6: Address, occupied: set<Address>, owned: map<string, Address>, names: seq<string>, n: nat,
                 ranges: map<string, Address>, taken: set<Address>, given: map<string, nat>, next: nat, i: nat)
    requires n < |names| && Sorted(names, StringLess)
             && Pass6(ipv6, occupied, owned, names, n, ranges, taken, given, next)
    requires names[n] !in owned && i < 256 && Least(Free6(ipv6, taken, next), i)
    ensures Pass6(ipv6, occupied, owned, names, n + 1, ranges[names[n] := Slot6(ipv6, i)], taken + {Slot6(ipv6, i)},
                  given[names[n] := i], i + 1)
  {
    assert Least(Free6(ipv6, occupied, next), i);
    MarkedStep(ipv6, occupied, taken, next, i);
    PlacedNew(ipv6, occupied, owned, names, n, ranges, given, next, i);
    if Distinct(names) {
      ProgressNext(ipv6, occupied, owned, names, n, given, next, i);
    }
  }

  lemma RepeatedName(names: seq<string>, n: nat)
    requires n < |names| && names[n] in names[..n]
    ensures !Distinct(names)
  {
    var i :| 0 <= i < n && names[..n][i] == names[n];
    assert names[i] == names[n];
  }

  lemma Pass6Again(ipv6: Address, occupied: set<Address>, owned: map<string, Address>, names: seq<string>, n: nat,
                   ranges: map<string, Address>, taken: set<Address>, given: map<string, nat>, next: nat)
    requires n < |names| && Pass6(ipv6, occupied, owned, names, n, ranges, taken, given, next)
    requires names[n] !in owned && names[n] in ranges
    ensures Pass6(ipv6, occupied, owned, names, n + 1, ranges, taken, given, 256)
  {
    MarkedEnd(ipv6, occupied, taken, next);
    PlacedAgain(ipv6, occupied, owned, names, n, ranges, given, next);
    RepeatedName(names, n);
  }

  lemma Pass6Fails(ipv6: Address, occupied: set<Address>, owned: map<string, Address>, names: seq<string>, n: nat,
                   ranges: map<string, Address>, taken: set<Address>, given: map<string, nat>, next: nat)
    requires n < |names| && Pass6(ipv6, occupied, owned, names, n, ranges, taken, given, next)
    requires names[n] !in owned && names[n] !in ranges && Free6(ipv6, taken, next) == {}
    ensures Distinct(names) ==> |Needing(owned, names)| > |Free6(ipv6, occupied, 0)|
  {
    NeedingStep(owned, names, n);
    if Distinct(names) {
      HandedOut(Free6(ipv6, occupied, 0), Needing(owned, names[..n]), given, Needing(owned, names), names[n]);
    }
  }

  lemma Pass6Ends(ipv6: Address, occupied: set<Address>, owned: map<string, Address>, names: seq<string>,
                  ranges: map<string, Address>, taken: set<Address>, given: map<string, nat>, next: nat)
    requires Pass6(ipv6, occupied, owned, names, |names|, ranges, taken, given, next)
    ensures Placed6(ipv6, occupied, owned, names, ranges, given, 256) && Marked6(ipv6, occupied, taken, 256)
    ensures Distinct(names) ==>
              |Needing(owned, names)| <= |Free6(ipv6, occupied, 0)| && InOrder(Free6(ipv6, occupied, 0), given)
  {
    assert names[..|names|] == names;
    MarkedEnd(ipv6, occupied, taken, next);
    if Distinct(names) {
      HandedFits(Free6(ipv6, occupied, 0), Needing(owned, names), given, Free6(ipv6, occupied, next));
    }
  }

  lemma Pass6Starts(ipv6: Address, occupied: set<Address>, owned: map<string, Address>, names: seq<string>)
    ensures Pass6(ipv6, occupied, owned, names, 0, map[], occupied, map[], 0)
  {
    HandedStart(Free6(ipv6, occupied, 0));
  }

  lemma FreeShrinks(ipv6: Address, occupied: set<Address>, taken: set<Address>, next: nat, i: nat)
    requires Marked6(ipv6, occupied, taken, next) && Least(Free6(ipv6, taken, next), i)
    ensures |Free6(ipv6, occupied, next)| == |Free6(ipv6, occupied, i + 1)| + 1
  {
    assert Free6(ipv6, occupied, next) == Free6(ipv6, occupied, i + 1) + {i} && i !in Free6(ipv6, occupied, i + 1);
  }

  // Taking a range leaves one less.
  lemma SupplyShrinks(ipv6: Address, occupied: set<Address>, owned: map<string, Address>, names: seq<string>, n: nat,
                      taken: set<Address>, next: nat, i: nat)
    requires n < |names| && Sorted(names, StringLess) && names[n] !in owned
    requires Marked6(ipv6, occupied, taken, next) && Least(Free6(ipv6, taken, next), i)
    requires Supplied(owned, names, n, |Free6(ipv6, occupied, 0)|, |Free6(ipv6, occupied, next)|)
    ensures Supplied(owned, names, n + 1, |Free6(ipv6, occupied, 0)|, |Free6(ipv6, occupied, i + 1)|)
  {
    FreeShrinks(ipv6, occupied, taken, next, i);
    SuppliedNext(owned, names, n, |Free6(ipv6, occupied, 0)|, |Free6(ipv6, occupied, next)|);
  }

  // A name met again takes nothing when nothing is left.
  lemma SupplyEnded(ipv6: Address, occupied: set<Address>, owned: map<string, Address>, names: seq<string>, n: nat,
                    ranges: map<string, Address>, taken: set<Address>, given: map<string, nat>, next: nat)
    requires n < |names| && Sorted(names, StringLess) && names[n] !in owned && names[n] in ranges
    requires Pass6(ipv6, occupied, owned, names, n, ranges, taken, given, next) && Free6(ipv6, taken, next) == {}
    requires Supplied(owned, names, n, |Free6(ipv6, occupied, 0)|, |Free6(ipv6, occupied, next)|)
    ensures Supplied(owned, names, n + 1, |Free6(ipv6, occupied, 0)|, |Free6(ipv6, occupied, 256)|)
  {
    assert Free6(ipv6, occupied, next) == {} && Free6(ipv6, occupied, 256) == {};
    SuppliedNext(owned, names, n, |Free6(ipv6, occupied, 0)|, 0);
  }

  // Both accounts of the loop after n names.
  ghost predicate Loop6(ipv6: Address, occupied: set<Address>, owned: map<string, Address>, names: seq<string>, n: nat,
                        ranges: map<string, Address>, taken: set<Address>, given: map<string, nat>, next: nat) {
    && next <= 256 && Sorted(names, StringLess) && Pass6(ipv6, occupied, owned, names, n, ranges, taken, given, next)
    && Supplied(owned, names, n, |Free6(ipv6, occupied, 0)|, |Free6(ipv6, occupied, next)|)
  }

  lemma Loop6Starts(ipv6: Address, occupied: set<Address>, owned: map<string, Address>, names: seq<string>)
    requires Sorted(names, StringLess)
    ensures Loop6(ipv6, occupied, owned, names, 0, map[], occupied, map[], 0)
  {
    Pass6Starts(ipv6, occupied, owned, names);
  }

  lemma Loop6Owned(ipv6: Address, occupied: set<Address>, owned: map<string, Address>, names: seq<string>, n: nat,
                   ranges: map<string, Address>, taken: set<Address>, given: map<string, nat>, next: nat)
    requires n < |names| && Loop6(ipv6, occupied, owned, names, n, ranges, taken, given, next) && names[n] in owned
    ensures Loop6(ipv6, occupied, owned, names, n + 1, ranges[names[n] := owned[names[n]]], taken, given, next)
  {
    Pass6Owned(ipv6, occupied, owned, names, n, ranges, taken, given, next);
    SuppliedNext(owned, names, n, |Free6(ipv6, occupied, 0)|, |Free6(ipv6, occupied, next)|);
  }

  lemma Loop6New(ipv6: Address, occupied: set<Address>, owned: map<string, Address>, names: seq<string>, n: nat,
                 ranges: map<string, Address>, taken: set<Address>, given: map<string, nat>, next: nat, i: nat)
    requires n < |names| && Loop6(ipv6, occupied, owned, names, n, ranges, taken, given, next)
    requires names[n] !in owned && i < 256 && Least(Free6(ipv6, taken, next), i)
    ensures Loop6(ipv6, occupied, owned, names, n + 1, ranges[names[n] := Slot6(ipv6, i)], taken + {Slot6(ipv6, i)},
                  given[names[n] := i], i + 1)
  {
    Pass6New(ipv6, occupied, owned, names, n, ranges, taken, given, next, i);
    SupplyShrinks(ipv6, occupied, owned, names, n, taken, next, i);
  }

  lemma Loop6Again(ipv6: Address, occupied: set<Address>, owned: map<string, Address>, names: seq<string>, n: nat,
                   ranges: map<string, Address>, taken: set<Address>, given: map<string, nat>, next: nat)
    requires n < |names| && Loop6(ipv6, occupied, owned, names, n, ranges, taken, given, next)
    requires names[n] !in owned && names[n] in ranges && Free6(ipv6, taken, next) == {}
    ensures Loop6(ipv6, occupied, owned, names, n + 1, ranges, taken, given, 256)
  {
    Pass6Again(ipv6, occupied, owned, names, n, ranges, taken, given, next);
    SupplyEnded(ipv6, occupied, owned, names, n, ranges, taken, given, next);
  }

  // Too few free ranges for the names.
  ghost predicate Short(ipv6: Address, occupied: set<Address>, owned: map<string, Address>, names: seq<string>) {
    && Starved(owned, names, |Free6(ipv6, occupied, 0)|)
    && (Distinct(names) ==> |Needing(owned, names)| > |Free6(ipv6, occupied, 0)|)
  }

  lemma Loop6Fails(ipv6: Address, occupied: set<Address>, owned: map<string, Address>, names: seq<string>, n: nat,
                   ranges: map<string, Address>, taken: set<Address>, given: map<string, nat>, next: nat)
    requires n < |names| && Loop6(ipv6, occupied, owned, names, n, ranges, taken, given, next)
    requires names[n] !in owned && names[n] !in ranges && Free6(ipv6, taken, next) == {}
    ensures Short(ipv6, occupied, owned, names) && Marked6(ipv6, occupied, taken, 256)
  {
    Pass6Fails(ipv6, occupied, owned, names, n, ranges, taken, given, next);
    assert Free6(ipv6, occupied, next) == {};
    SuppliedFails(owned, names, n, |Free6(ipv6, occupied, 0)|);
    MarkedEnd(ipv6, occupied, taken, next);
  }

  // One name: an owned range is kept, else the cursor moves to the next free one.
  method AllocateOne(ipv6: Address, ghost occupied: set<Address>, owned: map<string, Address>, names: seq<string>,
                     n: nat, ranges: map<string, Address>, taken: set<Address>, ghost given: map<string, nat>,
                     next: nat)
    returns (ok: bool, moreRanges: map<string, Address>, moreTaken: set<Address>, ghost more: map<string, nat>,
             cursor: nat)
    requires n < |names| && Loop6(ipv6, occupied, owned, names, n, ranges, taken, given, next)
    ensures ok ==> Loop6(ipv6, occupied, owned, names, n + 1, moreRanges, moreTaken, more, cursor)
    ensures !ok ==> Short(ipv6, occupied, owned, names) && Marked6(ipv6, occupied, moreTaken, 256)
  {
    var name := names[n];
    ok, moreRanges, moreTaken, more, cursor := true, ranges, taken, given, next;
    if name in owned {
      Loop6Owned(ipv6, occupied, owned, names, n, ranges, taken, given, next);
      moreRanges := ranges[name := owned[name]];
      return;
    }
    var found;
    found, cursor := NextFree(ipv6, taken, next);
    if found.Some? {
      Loop6New(ipv6, occupied, owned, names, n, ranges, taken, given, next, found.value);
      moreRanges, moreTaken := ranges[name := Slot6(ipv6, found.value)], taken + {Slot6(ipv6, found.value)};
      more := given[name := found.value];
    } else if name in ranges {
      Loop6Again(ipv6, occupied, owned, names, n, ranges, taken, given, next);
    } else {
      Loop6Fails(ipv6, occupied, owned, names, n, ranges, taken, given, next);
      ok := false;
    }
  }

  // What an allocation over names that all got a range satisfies.
  ghost predicate Done6(ipv6: Address, occupied: set<Address>, owned: map<string, Address>, names: seq<string>,
                        ranges: map<string, Address>, given: map<string, nat>) {
    && Placed6(ipv6, occupied, owned, names, ranges, given, 256) && !Starved(owned, names, |Free6(ipv6, occupied, 0)|)
    && (Distinct(names) ==>
          |Needing(owned, names)| <= |Free6(ipv6, occupied, 0)| && InOrder(Free6(ipv6, occupied, 0), given))
  }

  lemma Loop6Ends(ipv6: Address, occupied: set<Address>, owned: map<string, Address>, names: seq<string>,
                  ranges: map<string, Address>, taken: set<Address>, given: map<string, nat>, next: nat)
    requires Loop6(ipv6, occupied, owned, names, |names|, ranges, taken, given, next)
    ensures Done6(ipv6, occupied, owned, names, ranges, given) && Marked6(ipv6, occupied, taken, 256)
  {
    Pass6Ends(ipv6, occupied, owned, names, ranges, taken, given, next);
    SuppliedEnds(owned, names, |Free6(ipv6, occupied, 0)|, |Free6(ipv6, occupied, next)|);
  }

  // The loop over sorted names.
  method AllocateEach(ipv6: Address, occupied: set<Address>, owned: map<string, Address>, names: seq<string>)
    returns (ok: bool, ranges: map<string, Address>, taken: set<Address>, ghost given: map<string, nat>,
             ghost next: nat)
    requires Sorted(names, StringLess)
    ensures ok ==> Loop6(ipv6, occupied, owned, names, |names|, ranges, taken, given, next)
    ensures !ok ==> Short(ipv6, occupied, owned, names) && Marked6(ipv6, occupied, taken, 256)
  {
    var cursor, n := 0, 0;
    ok, ranges, taken, given, next := true, map[], occupied, map[], 0;
    Loop6Starts(ipv6, occupied, owned, names);
    while ok && n < |names|
      invariant n <= |names|
      invariant ok ==> Loop6(ipv6, occupied, owned, names, n, ranges, taken, given, cursor)
      invariant !ok ==> Short(ipv6, occupied, owned, names) && Marked6(ipv6, occupied, taken, 256)
      decreases |names| - n
    {
      ok, ranges, taken, given, cursor := AllocateOne(ipv6, occupied, owned, names, n, ranges, taken, given, cursor);
      n := n + 1;
    }
    next := cursor;
  }

  method AllocateSorted(ipv6: Address, occupied: set<Address>, owned: map<string, Address>, names: seq<string>)
    returns (r: Outcome<Address>, taken: set<Address>, ghost given: map<string, nat>)
    requires Sorted(names, StringLess)
    ensures r.Allocated? || r == NoSpace
    ensures Marked6(ipv6, occupied, taken, 256)
    ensures r.Allocated? ==> Done6(ipv6, occupied, owned, names, r.ranges, given)
    ensures r == NoSpace ==> Short(ipv6, occupied, owned, names)
  {
    var ok, ranges;
    ghost var next;
    ok, ranges, taken, given, next := AllocateEach(ipv6, occupied, owned, names);
    if ok {
      Loop6Ends(ipv6, occupied, owned, names, ranges, taken, given, next);
      r := Allocated(ranges);
    } else {
      r := NoSpace;
    }
  }

  /** Keeps owned /64s, then hands the first free ones to the other names in order. It fails exactly when some name
      comes after at least as many claims of lesser names as there are free /64s, which for names that do not repeat
      is exactly lack of space. `taken` is the caller's set afterwards. */
  method AllocateNodeGroups(ipv6: Address, occupied: set<Address>, owned: map<string, Address>, nodeGroups: seq<string>)
    returns (r: Outcome<Address>, taken: set<Address>, ghost given: map<string, nat>)
    ensures r.Allocated? || r == NoSpace
    ensures Marked6(ipv6, occupied, taken, 256)
    ensures r.Allocated? ==> Placed6(ipv6, occupied, owned, nodeGroups, r.ranges, given, 256)
    ensures r == NoSpace <==> Starved(owned, nodeGroups, |Free6(ipv6, occupied, 0)|)
    ensures Distinct(nodeGroups) ==> (r == NoSpace <==> |Needing(owned, nodeGroups)| > |Free6(ipv6, occupied, 0)|)
    ensures Distinct(nodeGroups) && r.Allocated? ==> InOrder(Free6(ipv6, occupied, 0), given)
  {
    var names := Sort(nodeGroups, StringLess);
    NeedingAll(owned, names, nodeGroups);
    StringsSort(nodeGroups);
    DistinctPermuted(names, nodeGroups);
    StarvedPermuted(owned, names, nodeGroups, |Free6(ipv6, occupied, 0)|);
    r, taken, given := AllocateSorted(ipv6, occupied, owned, names);
  }

  // Every /64 of the block but the first two.
  function AllButTwo(ipv6: Address): set<Address> {
    set i: nat | 2 <= i < 256 :: Slot6(ipv6, i)
  }

  lemma TwoFree(ipv6: Address)
    ensures Free6(ipv6, AllButTwo(ipv6), 0) == {0, 1}
  {
    forall i: nat | i < 256
      ensures Slot6(ipv6, i) in AllButTwo(ipv6) <==> 2 <= i
    {
      if Slot6(ipv6, i) in AllButTwo(ipv6) {
        var j: nat :| 2 <= j < 256 && Slot6(ipv6, i) == Slot6(ipv6, j);
        Slot6Apart(ipv6, i, j);
      }
    }
  }

  /** A repeated name can use up the space: in every block with two free /64s, "a" given twice takes both and leaves
      none for "b", although only two names need one. */
  lemma RepeatCanStarve(ipv6: Address)
    ensures |Free6(ipv6, AllButTwo(ipv6), 0)| == 2 && |Needing<Address>(map[], ["a", "a", "b"])| == 2
    ensures Starved<Address>(map[], ["a", "a", "b"], 2)
  {
    TwoFree(ipv6);
    RepeatStarves<Address>();
  }

  // Two /64s share an address exactly when their first eight bytes agree.
  predicate Overlap6(a: Address, b: Address) { a[..8] == b[..8] }

  predicate Masked64(a: Address) { forall k :: 8 <= k < 16 ==> a[k] == 0 }

  /** New /64s lie in the VPC's /56 and meet nothing occupied and no other name's range, if what is owned is
      occupied. */
  lemma NewSlotsApart(ipv6: Address, occupied: set<Address>, owned: map<string, Address>, names: seq<string>,
                      ranges: map<string, Address>, given: map<string, nat>, z: string)
    requires Placed6(ipv6, occupied, owned, names, ranges, given, 256) && z in Needing(owned, names)
    requires Masked64(ipv6) && forall a :: a in occupied ==> Masked64(a)
    requires forall y :: y in owned ==> owned[y] in occupied
    ensures ranges[z][..7] == ipv6[..7]
    ensures forall a :: a in occupied ==> !Overlap6(ranges[z], a)
    ensures forall y :: y in ranges && y != z ==> !Overlap6(ranges[z], ranges[y])
  {
    assert Masked64(ranges[z]);
    forall a | a in occupied
      ensures !Overlap6(ranges[z], a)
    {
      SameBlock(ranges[z], a);
    }
    forall y | y in given && y != z
      ensures !Overlap6(ranges[z], ranges[y])
    {
      assert ranges[z][..8][7] == given[z] && ranges[y][..8][7] == given[y];
    }
  }

  lemma SameBlock(a: Address, b: Address)
    requires Masked64(a) && Masked64(b) && a != b
    ensures !Overlap6(a, b)
  {
    var k :| 0 <= k < 16 && a[k] != b[k];
    assert a[..8][k] != b[..8][k];
  }
}
