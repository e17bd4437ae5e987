// Handing free positions to names, lowest position first, in name order: what both subnet allocators do.
module Allocation {
  import opened Sorting

  predicate Injective(given: map<string, nat>) {
    forall a, b :: a in given && b in given && a != b ==> given[a] != given[b]
  }

  // Exactly the names in `need` hold distinct free positions; `spare` are the free ones left.
  ghost predicate Handed(free: set<nat>, need: set<string>, given: map<string, nat>, spare: set<nat>) {
    && given.Keys == need && given.Values <= free && spare == free - given.Values
    && |given.Values| == |given| && Injective(given)
  }

  // No free position below a handed one is left over, and positions follow the names.
  ghost predicate InOrder(free: set<nat>, given: map<string, nat>) {
    && (forall i, z :: i in free && z in given && i < given[z] ==> i in given.Values)
    && (forall a, b :: a in given && b in given && StringLess(a, b) ==> given[a] < given[b])
  }

  ghost predicate Least(spare: set<nat>, i: nat) {
    i in spare && forall h :: h in spare ==> i <= h
  }

  lemma HandedStart(free: set<nat>)
    ensures Handed(free, {}, map[], free) && InOrder(free, map[])
  {
  }

  lemma ValuesStep(given: map<string, nat>, name: string, i: nat)
    requires name !in given
    ensures given[name := i].Values == given.Values + {i} && |given[name := i]| == |given| + 1
  {
    var after := given[name := i];
    assert after.Keys == given.Keys + {name} && |after.Keys| == |given.Keys| + 1;
    assert after[name] == i;
    forall h | h in given.Values
      ensures h in after.Values
    {
      var z :| z in given && given[z] == h;
      assert after[z] == h;
    }
    assert after.Values == given.Values + {i};
  }

  lemma InjectiveStep(given: map<string, nat>, name: string, i: nat)
    requires Injective(given) && i !in given.Values
    ensures Injective(given[name := i])
  {
    assert forall z :: z in given ==> given[z] in given.Values;
  }

  lemma HandedStep(free: set<nat>, need: set<string>, given: map<string, nat>, spare: set<nat>, name: string, i: nat)
    requires Handed(free, need, given, spare) && name !in need && i in spare
    ensures Handed(free, need + {name}, given[name := i], spare - {i})
  {
    ValuesStep(given, name, i);
    InjectiveStep(given, name, i);
    assert free - (given.Values + {i}) == spare - {i};
    assert |given.Values + {i}| == |given.Values| + 1;
  }

  lemma OrderStep(free: set<nat>, need: set<string>, given: map<string, nat>, spare: set<nat>, name: string, i: nat)
    requires Handed(free, need, given, spare) && InOrder(free, given) && name !in need && Least(spare, i)
    requires forall z :: z in need ==> !StringLess(name, z)
    ensures InOrder(free, given[name := i])
  {
    ValuesStep(given, name, i);
    var after := given[name := i];
    forall z | z in given
      ensures given[z] < i
    {
      assert given[z] in given.Values && i !in given.Values;
    }
    forall h, z | h in free && z in after && h < after[z]
      ensures h in after.Values
    {
      assert h in spare || h in given.Values;
    }
    StringOrder(name, name, name);
  }

  lemma SubsetSize<T>(a: set<T>, b: set<T>)
    requires a <= b
    ensures |a| <= |b| && (a != b ==> |a| < |b|)
  {
    assert b == a + (b - a);
    if a != b {
      var x :| x in b - a;
      assert |b - a| > 0;
    }
  }

  lemma HandedFits(free: set<nat>, need: set<string>, given: map<string, nat>, spare: set<nat>)
    requires Handed(free, need, given, spare)
    ensures |need| <= |free|
  {
    SubsetSize(given.Values, free);
    assert |given.Keys| == |given|;
  }

  // Nothing is spare and one more name is in need: there were too few.
  lemma HandedOut(free: set<nat>, need: set<string>, given: map<string, nat>, all: set<string>, name: string)
    requires Handed(free, need, given, {}) && need <= all && name in all && name !in need
    ensures |all| > |free|
  {
    forall i | i in free
      ensures i in given.Values
    {
      assert i in given.Values || i in free - given.Values;
    }
    assert given.Values == free;
    SubsetSize(need, all);
    assert |given.Keys| == |given|;
  }

  function Needing<T>(owned: map<string, T>, names: seq<string>): set<string> {
    set z | z in names && z !in owned
  }

  lemma NeedingStep<T>(owned: map<string, T>, names: seq<string>, n: nat)
    requires n < |names|
    ensures Needing(owned, names[..n + 1])
            == Needing(owned, names[..n]) + (if names[n] in owned then {} else {names[n]})
    ensures Needing(owned, names[..n + 1]) <= Needing(owned, names)
    ensures names[n] !in owned ==> names[n] in Needing(owned, names)
  {
    assert names[..n + 1] == names[..n] + [names[n]];
  }

  lemma NeedingAll<T>(owned: map<string, T>, names: seq<string>, zones: seq<string>)
    requires multiset(names) == multiset(zones)
    ensures Needing(owned, names) == Needing(owned, zones) && forall x :: x in names <==> x in zones
  {
    forall x
      ensures x in names <==> x in zones
    {
      assert x in names <==> x in multiset(names);
    }
  }

  // Names in sorted order: none before the n-th is greater.
  lemma SortedBefore(names: seq<string>, n: nat, z: string)
    requires Sorted(names, StringLess) && n < |names| && z in names[..n]
    ensures !StringLess(names[n], z)
  {
    var i :| 0 <= i < n && names[..n][i] == z;
    assert names[i] == z;
  }

  // ---- Names that may repeat ----

  // One for each occurrence of a name in need.
  function Claiming<T>(owned: map<string, T>): string -> multiset<string> {
    x => if x in owned then multiset{} else multiset{x}
  }

  // One for each occurrence of a name in need before z.
  function ClaimingBefore<T>(owned: map<string, T>, z: string): string -> multiset<string> {
    x => if x in owned || !StringLess(x, z) then multiset{} else multiset{x}
  }

  function Occurrences<T>(owned: map<string, T>, names: seq<string>): nat {
    |Sum(names, Claiming(owned))|
  }

  function OccurrencesBefore<T>(owned: map<string, T>, names: seq<string>, z: string): nat {
    |Sum(names, ClaimingBefore(owned, z))|
  }

  lemma OccurrencesStep<T>(owned: map<string, T>, names: seq<string>, n: nat)
    requires n < |names|
    ensures Occurrences(owned, names[..n + 1]) == Occurrences(owned, names[..n]) + if names[n] in owned then 0 else 1
  {
    assert names[..n + 1] == names[..n] + [names[n]];
    SumAppend(names[..n], names[n], Claiming(owned));
  }

  // At the first occurrence of a name in sorted order, exactly the occurrences of lesser names are behind.
  lemma FirstOccurrence<T>(owned: map<string, T>, names: seq<string>, n: nat)
    requires n < |names| && Sorted(names, StringLess) && names[n] !in names[..n]
    ensures OccurrencesBefore(owned, names, names[n]) == Occurrences(owned, names[..n])
  {
    var z, before, after := names[n], names[..n], names[n..];
    assert names == before + after;
    SumConcat(before, after, ClaimingBefore(owned, z));
    forall x | x in before
      ensures StringLess(x, z)
    {
      SortedBefore(names, n, x);
      StringOrder(x, z, x);
    }
    SumSame(before, ClaimingBefore(owned, z), Claiming(owned));
    forall x | x in after
      ensures !StringLess(x, z)
    {
      var i :| 0 <= i < |after| && after[i] == x;
      assert names[n + i] == x;
      StringOrder(z, z, z);
    }
    SumNone(after, ClaimingBefore(owned, z));
  }

  lemma {:induction false} SumNone(s: seq<string>, g: string -> multiset<string>)
    requires forall x :: x in s ==> g(x) == multiset{}
    ensures Sum(s, g) == multiset{}
  {
    if s != [] {
      SumNone(s[1..], g);
    }
  }

  // Some name comes after at least as many claims of lesser names as there are free positions.
  ghost predicate Starved<T>(owned: map<string, T>, names: seq<string>, free: nat) {
    exists z :: z in Needing(owned, names) && OccurrencesBefore(owned, names, z) >= free
  }

  lemma StarvedPermuted<T>(owned: map<string, T>, a: seq<string>, b: seq<string>, free: nat)
    requires multiset(a) == multiset(b)
    ensures Starved(owned, a, free) <==> Starved(owned, b, free)
  {
    NeedingAll(owned, a, b);
    forall z
      ensures OccurrencesBefore(owned, a, z) == OccurrencesBefore(owned, b, z)
    {
      SumPermuted(a, b, ClaimingBefore(owned, z));
    }
  }

  // What is left after n names, and that no name so far was starved.
  ghost predicate Supplied<T>(owned: map<string, T>, names: seq<string>, n: nat, free: nat, left: nat) {
    && n <= |names|
    && left == (if Occurrences(owned, names[..n]) <= free then free - Occurrences(owned, names[..n]) else 0)
    && forall z :: z in Needing(owned, names[..n]) ==> OccurrencesBefore(owned, names, z) < free
  }

  lemma SuppliedNext<T>(owned: map<string, T>, names: seq<string>, n: nat, free: nat, left: nat)
    requires n < |names| && Sorted(names, StringLess) && Supplied(owned, names, n, free, left)
    requires names[n] in owned || left > 0 || names[n] in Needing(owned, names[..n])
    ensures Supplied(owned, names, n + 1, free, if names[n] in owned || left == 0 then left else left - 1)
  {
    OccurrencesStep(owned, names, n);
    NeedingStep(owned, names, n);
    if names[n] !in owned && names[n] !in names[..n] {
      FirstOccurrence(owned, names, n);
    }
  }

  lemma SuppliedFails<T>(owned: map<string, T>, names: seq<string>, n: nat, free: nat)
    requires n < |names| && Sorted(names, StringLess) && Supplied(owned, names, n, free, 0)
    requires names[n] !in owned && names[n] !in names[..n]
    ensures Starved(owned, names, free)
  {
    FirstOccurrence(owned, names, n);
    assert names[n] in Needing(owned, names);
  }

  lemma SuppliedEnds<T>(owned: map<string, T>, names: seq<string>, free: nat, left: nat)
    requires Supplied(owned, names, |names|, free, left)
    ensures !Starved(owned, names, free)
  {
    assert names[..|names|] == names;
  }

  lemma {:induction false} RepeatStarves<T>()
    ensures |Needing<T>(map[], ["a", "a", "b"])| == 2 && Starved<T>(map[], ["a", "a", "b"], 2)
  {
    var names, before := ["a", "a", "b"], ClaimingBefore<T>(map[], "b");
    assert StringLess("a", "b") && "a" in names && "b" in names;
    assert names[1..] == ["a", "b"] && names[1..][1..] == ["b"] && names[1..][1..][1..] == [];
    assert before("a") == multiset{"a"};
    assert Sum(names, before) == before("a") + (before("a") + Sum(["b"], before));
    assert OccurrencesBefore<T>(map[], names, "b") >= 2;
    assert "a" != "b" && Needing<T>(map[], names) == {"a", "b"};
  }
}
