// What the compiled tables guarantee: ranges that partition the backend array, lookups that stay
// inside their own range, and independence from the order of the input.
module TableProperties {
  import opened Net
  import opened Sorting
  import opened Tables
  import D = Datapath

  function EntryKey(e: Entry): D.ServiceKey { e.key }

  // ---- Layout of a list of entries with distinct keys ----

  ghost predicate DistinctEntries(entries: seq<Entry>) {
    forall i, j :: 0 <= i < j < |entries| ==> entries[i].key != entries[j].key
  }

  lemma {:induction false} ConcatPrefix(entries: seq<Entry>, i: nat)
    requires i < |entries|
    ensures Concat(entries[..i]) + entries[i].backends == Concat(entries[..i + 1]) <= Concat(entries)
    decreases |entries|
  {
    if i + 1 == |entries| {
      assert entries[..i + 1] == entries;
    } else {
      var front := entries[..|entries| - 1];
      ConcatPrefix(front, i);
      assert front[..i] == entries[..i] && front[..i + 1] == entries[..i + 1];
    }
  }

  lemma {:induction false} ConcatMonotone(entries: seq<Entry>, i: nat, j: nat)
    requires i <= j <= |entries|
    ensures |Concat(entries[..i])| <= |Concat(entries[..j])|
    decreases j - i
  {
    if i < j {
      ConcatPrefix(entries, i);
      ConcatMonotone(entries, i + 1, j);
    }
  }

  // Every entry keeps the range it was laid out at.
  lemma {:induction false} RangeAt(entries: seq<Entry>, i: nat)
    requires i < |entries| && DistinctEntries(entries)
    ensures entries[i].key in Ranges(entries)
    ensures Ranges(entries)[entries[i].key] == Range(|Concat(entries[..i])|, |entries[i].backends|)
    decreases |entries|
  {
    var front := entries[..|entries| - 1];
    if i < |front| {
      RangeAt(front, i);
      assert front[..i] == entries[..i];
    }
  }

  // Within the map capacity no truncation happens.
  lemma RangeExact(entries: seq<Entry>, i: nat)
    requires i < |entries| && DistinctEntries(entries) && |Concat(entries)| <= MAX_TABLE_ENTRIES
    ensures entries[i].key in Ranges(entries)
    ensures var v := Ranges(entries)[entries[i].key];
            v.offset == |Concat(entries[..i])| && v.count == |entries[i].backends|
    ensures |Concat(entries[..i + 1])| == |Concat(entries[..i])| + |entries[i].backends| <= |Concat(entries)|
  {
    RangeAt(entries, i);
    ConcatPrefix(entries, i);
    NoTruncation(|Concat(entries[..i])|, |entries[i].backends|);
  }

  lemma NoTruncation(offset: nat, count: nat)
    requires offset + count <= MAX_TABLE_ENTRIES
    ensures Range(offset, count).offset == offset && Range(offset, count).count == count
  {
  }

  lemma {:induction false} RangeKeys(entries: seq<Entry>, key: D.ServiceKey)
    requires key in Ranges(entries)
    ensures exists i :: 0 <= i < |entries| && entries[i].key == key
  {
    if entries != [] && key != entries[|entries| - 1].key {
      RangeKeys(entries[..|entries| - 1], key);
      var i :| 0 <= i < |entries| - 1 && entries[..|entries| - 1][i].key == key;
      assert entries[i].key == key;
    }
  }

  lemma {:induction false} RangeCovers(entries: seq<Entry>, index: nat) returns (i: nat)
    requires index < |Concat(entries)|
    ensures i < |entries| && |Concat(entries[..i])| <= index < |Concat(entries[..i])| + |entries[i].backends|
  {
    var n := |entries| - 1;
    if |Concat(entries[..n])| <= index {
      i := n;
    } else {
      i := RangeCovers(entries[..n], index);
      assert entries[..n][..i] == entries[..i];
    }
  }

  // ---- The sorted entries of a snapshot ----

  function SlotBackends(slot: Slot): multiset<Backend> {
    multiset(slot.port.backends)
  }

  lemma KeysOfEntries(slots: seq<Slot>)
    ensures Map(Map(slots, EntryOf), EntryKey) == Map(slots, KeyOf)
  {
  }

  lemma DistinctFromKeys(entries: seq<Entry>)
    requires Distinct(Map(entries, EntryKey))
    ensures DistinctEntries(entries)
  {
    forall i, j | 0 <= i < j < |entries|
      ensures entries[i].key != entries[j].key
    {
      assert Map(entries, EntryKey)[i] != Map(entries, EntryKey)[j];
    }
  }

  lemma EntriesDistinct(s: Snapshot)
    requires DistinctKeys(Flatten(s.services))
    ensures DistinctEntries(SortedEntries(s))
  {
    var slots := Flatten(s.services);
    KeysDistinct(slots);
    KeysOfEntries(slots);
    MapPermuted(Map(slots, EntryOf), SortedEntries(s), EntryKey);
    DistinctPermuted(Map(slots, KeyOf), Map(SortedEntries(s), EntryKey));
    DistinctFromKeys(SortedEntries(s));
  }

  lemma SlotEntry(s: Snapshot, slot: Slot) returns (i: nat)
    requires slot in Flatten(s.services)
    ensures i < |SortedEntries(s)| && SortedEntries(s)[i] == EntryOf(slot)
  {
    var slots, sorted := Flatten(s.services), SortedEntries(s);
    var k :| 0 <= k < |slots| && slots[k] == slot;
    assert Map(slots, EntryOf)[k] in multiset(sorted);
    i :| i < |sorted| && sorted[i] == EntryOf(slot);
  }

  lemma {:induction false} ConcatTotal(entries: seq<Entry>, slots: seq<Slot>)
    requires |entries| == |slots|
    requires forall i :: 0 <= i < |slots| ==> |entries[i].backends| == |slots[i].port.backends|
    ensures |Concat(entries)| == BackendTotal(slots)
  {
    if slots != [] {
      ConcatTotal(entries[..|slots| - 1], slots[..|slots| - 1]);
    }
  }

  function EntryBackends(e: Entry): multiset<D.BackendValue> { multiset(e.backends) }

  lemma {:induction false} ConcatSum(entries: seq<Entry>)
    ensures multiset(Concat(entries)) == Sum(entries, EntryBackends)
  {
    if entries != [] {
      ConcatSum(entries[..|entries| - 1]);
      SumWithout(entries, |entries| - 1, EntryBackends);
      assert Without(entries, |entries| - 1) == entries[..|entries| - 1];
    }
  }

  // The backend array holds exactly the snapshot's backends, within the map capacity.
  lemma BackendArray(s: Snapshot)
    requires Acceptable(s) && s.services != []
    ensures |CompiledTables(s).backends| == BackendTotal(Flatten(s.services)) <= MAX_TABLE_ENTRIES
  {
    var entries, sorted := Map(Flatten(s.services), EntryOf), SortedEntries(s);
    ConcatTotal(entries, Flatten(s.services));
    ConcatSum(entries);
    ConcatSum(sorted);
    assert Map(entries, x => x) == entries && Map(sorted, x => x) == sorted;
    SumReordered(entries, sorted, x => x, EntryBackends);
    assert |multiset(Concat(entries))| == |multiset(Concat(sorted))|;
  }

  // The range of a port is in bounds and is a sorted permutation of that port's own backends.
  ghost predicate HoldsPort(services: map<D.ServiceKey, D.ServiceValue>, backends: seq<D.BackendValue>, slot: Slot) {
    && KeyOf(slot) in services
    && var v := services[KeyOf(slot)];
       && v.count == |slot.port.backends| && v.offset + v.count <= |backends|
       && Sorted(backends[v.offset..v.offset + v.count], BackendLess)
       && multiset(backends[v.offset..v.offset + v.count]) == multiset(Map(slot.port.backends, Value))
  }

  /** Every port's range is in bounds and is a sorted permutation of that port's own backends. */
  lemma PortRange(s: Snapshot, slot: Slot)
    requires Acceptable(s) && slot in Flatten(s.services)
    ensures var t := CompiledTables(s);
            |t.backends| <= MAX_TABLE_ENTRIES && HoldsPort(t.services, t.backends, slot)
  {
    assert s.services != [];
    EntriesDistinct(s);
    BackendArray(s);
    var i := SlotEntry(s, slot);
    EntryHoldsPort(SortedEntries(s), i, slot);
  }

  lemma {:induction false} EntryHoldsPort(entries: seq<Entry>, i: nat, slot: Slot)
    requires i < |entries| && entries[i] == EntryOf(slot)
    requires DistinctEntries(entries) && |Concat(entries)| <= MAX_TABLE_ENTRIES
    ensures HoldsPort(Ranges(entries), Concat(entries), slot)
  {
    EntrySlice(entries, i);
    EntryBackendsSorted(slot);
    HoldsSlice(Ranges(entries), Concat(entries), slot, entries[i].backends);
  }

  lemma HoldsSlice(services: map<D.ServiceKey, D.ServiceValue>, backends: seq<D.BackendValue>, slot: Slot,
                   slice: seq<D.BackendValue>)
    requires Sorted(slice, BackendLess) && multiset(slice) == multiset(Map(slot.port.backends, Value))
    requires |slice| == |slot.port.backends| && KeyOf(slot) in services
    requires var v := services[KeyOf(slot)];
             v.count == |slice| && v.offset + v.count <= |backends| && backends[v.offset..v.offset + v.count] == slice
    ensures HoldsPort(services, backends, slot)
  {
  }

  lemma EntryBackendsSorted(slot: Slot)
    ensures Sorted(EntryOf(slot).backends, BackendLess)
    ensures multiset(EntryOf(slot).backends) == multiset(Map(slot.port.backends, Value))
    ensures |EntryOf(slot).backends| == |slot.port.backends|
  {
    Orders();
    SortSorted(Map(slot.port.backends, Value), BackendLess);
  }

  // The range of an entry holds exactly its backends.
  lemma {:induction false} EntrySlice(entries: seq<Entry>, i: nat)
    requires i < |entries| && DistinctEntries(entries) && |Concat(entries)| <= MAX_TABLE_ENTRIES
    ensures entries[i].key in Ranges(entries)
    ensures var v := Ranges(entries)[entries[i].key];
            && v.count == |entries[i].backends| && v.offset + v.count <= |Concat(entries)|
            && Concat(entries)[v.offset..v.offset + v.count] == entries[i].backends
  {
    RangeExact(entries, i);
    ConcatPrefix(entries, i);
  }

  /** Only the snapshot's ports have ranges; ranges of different keys do not overlap and together cover the array. */
  lemma RangesPartition(s: Snapshot)
    requires Acceptable(s)
    ensures var t := CompiledTables(s);
            && (forall key :: key in t.services ==> exists slot :: slot in Flatten(s.services) && KeyOf(slot) == key)
            && (forall a, b :: a in t.services && b in t.services && a != b ==>
                  Before(t.services[a], t.services[b]) || Before(t.services[b], t.services[a]))
            && (forall index: nat :: index < |t.backends| ==> InSomeRange(t.services, index))
  {
    var t, entries := CompiledTables(s), SortedEntries(s);
    if s.services != [] {
      EntriesDistinct(s);
      BackendArray(s);
      forall key | key in t.services
        ensures exists slot :: slot in Flatten(s.services) && KeyOf(slot) == key
      {
        var _, slot := EntryOwner(s, key);
      }
      forall a, b | a in t.services && b in t.services && a != b
        ensures Before(t.services[a], t.services[b]) || Before(t.services[b], t.services[a])
      {
        KeysApart(entries, a, b);
      }
      forall index: nat | index < |t.backends|
        ensures InSomeRange(t.services, index)
      {
        IndexCovered(entries, index);
      }
    }
  }

  lemma {:induction false} KeysApart(entries: seq<Entry>, a: D.ServiceKey, b: D.ServiceKey)
    requires DistinctEntries(entries) && |Concat(entries)| <= MAX_TABLE_ENTRIES
    requires a in Ranges(entries) && b in Ranges(entries) && a != b
    ensures Before(Ranges(entries)[a], Ranges(entries)[b]) || Before(Ranges(entries)[b], Ranges(entries)[a])
  {
    RangeKeys(entries, a);
    RangeKeys(entries, b);
    var i: nat :| i < |entries| && entries[i].key == a;
    var j: nat :| j < |entries| && entries[j].key == b;
    if i < j {
      EntriesApart(entries, i, j);
    } else {
      EntriesApart(entries, j, i);
    }
  }

  lemma {:induction false} IndexCovered(entries: seq<Entry>, index: nat)
    requires DistinctEntries(entries) && index < |Concat(entries)| <= MAX_TABLE_ENTRIES
    ensures InSomeRange(Ranges(entries), index)
  {
    var i := RangeCovers(entries, index);
    RangeExact(entries, i);
    assert Within(Ranges(entries)[entries[i].key], index);
  }

  ghost predicate InSomeRange(services: map<D.ServiceKey, D.ServiceValue>, index: nat) {
    exists key :: key in services && Within(services[key], index)
  }

  predicate Within(v: D.ServiceValue, index: nat) {
    v.offset <= index < v.offset + v.count
  }

  predicate Before(a: D.ServiceValue, b: D.ServiceValue) {
    a.offset + a.count <= b.offset
  }

  lemma EntryOwner(s: Snapshot, key: D.ServiceKey) returns (i: nat, slot: Slot)
    requires key in Ranges(SortedEntries(s))
    ensures i < |SortedEntries(s)| && SortedEntries(s)[i].key == key
    ensures slot in Flatten(s.services) && KeyOf(slot) == key
  {
    var slots, entries := Flatten(s.services), SortedEntries(s);
    RangeKeys(entries, key);
    i :| i < |entries| && entries[i].key == key;
    assert entries[i] in multiset(Map(slots, EntryOf));
    var k :| 0 <= k < |slots| && Map(slots, EntryOf)[k] == entries[i];
    slot := slots[k];
  }

  lemma {:induction false} EntriesApart(entries: seq<Entry>, i: nat, j: nat)
    requires i < j < |entries| && DistinctEntries(entries) && |Concat(entries)| <= MAX_TABLE_ENTRIES
    ensures entries[i].key in Ranges(entries) && entries[j].key in Ranges(entries)
    ensures Before(Ranges(entries)[entries[i].key], Ranges(entries)[entries[j].key])
  {
    RangeExact(entries, i);
    RangeExact(entries, j);
    ConcatMonotone(entries, i + 1, j);
  }

  // ---- Lookups ----

  function SelectIndex(v: D.ServiceValue, digest: nat): U32
    requires v.count != 0
  {
    (v.offset + (digest % v.count) % 0x1_0000_0000) % 0x1_0000_0000
  }

  // Userspace selection over a 64-bit digest of the flow bytes.
  function SelectBackend(t: Compiled, key: D.ServiceKey, digest: nat): Option<D.BackendValue>
    requires digest < 0x1_0000_0000_0000_0000
  {
    if key !in t.services || t.services[key].count == 0 then None
    else
      var v := t.services[key];
      var index := SelectIndex(v, digest);
      if index >= |t.backends| then None else Some(t.backends[index])
  }

  // What the kernel maps hold after publication.
  function Published(t: Compiled): D.Tables {
    D.Tables(t.node, t.services, set key | key in t.services :: key.vip, t.backends)
  }

  ghost predicate OwnBackend(slot: Slot, value: D.BackendValue) {
    exists b :: b in slot.port.backends && Value(b) == value
  }

  /** Both lookups land on one of the port's own backends for every hash, and find none exactly when there is none. */
  lemma LookupsLandOnOwnBackends(s: Snapshot, slot: Slot, digest: nat, hash: U32)
    requires Acceptable(s) && slot in Flatten(s.services) && digest < 0x1_0000_0000_0000_0000
    ensures var t := CompiledTables(s);
            var selected := SelectBackend(t, KeyOf(slot), digest);
            && (selected.None? <==> slot.port.backends == [])
            && (selected.Some? ==> OwnBackend(slot, selected.value))
            && KeyOf(slot) in t.services
            && (t.services[KeyOf(slot)].count == 0 <==> slot.port.backends == [])
            && (slot.port.backends != [] ==>
                  var picked := D.BackendAt(Published(t), D.PickIndex(t.services[KeyOf(slot)], hash));
                  picked.Some? && OwnBackend(slot, picked.value))
  {
    PortRange(s, slot);
    SelectsOwn(CompiledTables(s), slot, digest);
    PicksOwn(CompiledTables(s), slot, hash);
  }

  lemma SelectsOwn(t: Compiled, slot: Slot, digest: nat)
    requires digest < 0x1_0000_0000_0000_0000
    requires |t.backends| <= MAX_TABLE_ENTRIES && HoldsPort(t.services, t.backends, slot)
    ensures var selected := SelectBackend(t, KeyOf(slot), digest);
            && (selected.None? <==> slot.port.backends == [])
            && (selected.Some? ==> OwnBackend(slot, selected.value))
  {
    var v := t.services[KeyOf(slot)];
    if v.count != 0 {
      var index := SelectInRange(v, digest);
      IndexIsOwn(t.backends, v.offset, v.count, slot, index);
    }
  }

  lemma SelectInRange(v: D.ServiceValue, digest: nat) returns (index: nat)
    requires 0 < v.count && v.offset + v.count <= MAX_TABLE_ENTRIES
    ensures index == SelectIndex(v, digest) && v.offset <= index < v.offset + v.count
  {
    SmallIndex(v, digest);
    index := v.offset + digest % v.count;
  }

  lemma PicksOwn(t: Compiled, slot: Slot, hash: U32)
    requires |t.backends| <= MAX_TABLE_ENTRIES && HoldsPort(t.services, t.backends, slot)
    ensures t.services[KeyOf(slot)].count == 0 <==> slot.port.backends == []
    ensures slot.port.backends != [] ==>
              var picked := D.BackendAt(Published(t), D.PickIndex(t.services[KeyOf(slot)], hash));
              picked.Some? && OwnBackend(slot, picked.value)
  {
    var v := t.services[KeyOf(slot)];
    if v.count != 0 {
      var index := PickInRange(v, hash);
      IndexIsOwn(t.backends, v.offset, v.count, slot, index);
    }
  }

  lemma PickInRange(v: D.ServiceValue, hash: U32) returns (index: nat)
    requires 0 < v.count && v.offset + v.count <= MAX_TABLE_ENTRIES
    ensures index == D.PickIndex(v, hash) && v.offset <= index < v.offset + v.count
  {
    SmallIndex(v, hash);
    index := v.offset + hash % v.count;
  }

  // Inside the capacity the 32-bit index arithmetic does not wrap.
  lemma SmallIndex(v: D.ServiceValue, hash: nat)
    requires 0 < v.count && v.offset + v.count <= MAX_TABLE_ENTRIES
    ensures 0 <= hash % v.count < v.count
    ensures (v.offset + (hash % v.count) % 0x1_0000_0000) % 0x1_0000_0000 == v.offset + hash % v.count
    ensures (v.offset + hash % v.count) % 0x1_0000_0000 == v.offset + hash % v.count
  {
    var r := hash % v.count;
    assert r % 0x1_0000_0000 == r;
  }

  lemma IndexIsOwn(backends: seq<D.BackendValue>, offset: nat, count: nat, slot: Slot, index: nat)
    requires offset + count <= |backends| && offset <= index < offset + count
    requires multiset(backends[offset..offset + count]) == multiset(Map(slot.port.backends, Value))
    ensures OwnBackend(slot, backends[index])
  {
    var slice, values := backends[offset..offset + count], Map(slot.port.backends, Value);
    assert slice[index - offset] in multiset(values);
    var k :| 0 <= k < |values| && values[k] == backends[index];
    assert slot.port.backends[k] in slot.port.backends;
  }

  // ---- Canonical form ----

  // A snapshot up to the order of its Services, of each Service's ports and of each port's backends.
  datatype SlotShape = SlotShape(vip: IP, protocol: Byte, port: Word, backends: multiset<Backend>)
  datatype ServiceShape = ServiceShape(vip: IP, slots: multiset<SlotShape>)

  function ShapeOfSlot(slot: Slot): SlotShape {
    SlotShape(slot.vip, slot.port.protocol, slot.port.port, multiset(slot.port.backends))
  }

  function ShapeOfService(service: Service): ServiceShape {
    ServiceShape(service.vip, multiset(Map(SlotsOf(service), ShapeOfSlot)))
  }

  ghost predicate Reordered(a: Snapshot, b: Snapshot) {
    a.node == b.node && multiset(Map(a.services, ShapeOfService)) == multiset(Map(b.services, ShapeOfService))
  }

  function ServiceSlots(service: Service): multiset<SlotShape> {
    ShapeOfService(service).slots
  }

  lemma {:induction false} FlattenShapes(services: seq<Service>)
    ensures multiset(Map(Flatten(services), ShapeOfSlot)) == Sum(services, ServiceSlots)
  {
    if services != [] {
      var n := |services| - 1;
      FlattenShapes(services[..n]);
      SumWithout(services, n, ServiceSlots);
      assert Without(services, n) == services[..n];
      MapConcat(Flatten(services[..n]), SlotsOf(services[n]), ShapeOfSlot);
    }
  }

  lemma SlotsReordered(a: Snapshot, b: Snapshot)
    requires Reordered(a, b)
    ensures multiset(Map(Flatten(a.services), ShapeOfSlot)) == multiset(Map(Flatten(b.services), ShapeOfSlot))
  {
    FlattenShapes(a.services);
    FlattenShapes(b.services);
    SumReordered(a.services, b.services, ShapeOfService, ServiceSlots);
  }

  // Slots of one shape lay out alike: sorting backends forgets their order.
  lemma EntryFromShape(x: Slot, y: Slot)
    requires ShapeOfSlot(x) == ShapeOfSlot(y)
    ensures EntryOf(x) == EntryOf(y)
  {
    MapPermuted(x.port.backends, y.port.backends, Value);
    var values := Map(x.port.backends, Value);
    Orders();
    forall a, b | a in values && b in values && a != b
      ensures BackendLess(a, b) || BackendLess(b, a)
    {
      BackendOrder(a, b, a);
    }
    SortCanonical(values, Map(y.port.backends, Value), BackendLess);
  }

  predicate ShapeOk(shape: SlotShape) {
    && shape.port != 0 && (shape.protocol == D.TCP || shape.protocol == D.UDP)
    && forall b :: b in shape.backends ==> BackendOk(b)
  }

  lemma OkFromShape(slots: seq<Slot>)
    ensures (forall slot :: slot in slots ==> SlotOk(slot))
            <==> forall shape :: shape in multiset(Map(slots, ShapeOfSlot)) ==> ShapeOk(shape)
  {
    var shapes := Map(slots, ShapeOfSlot);
    forall i | 0 <= i < |slots|
      ensures SlotOk(slots[i]) <==> ShapeOk(shapes[i])
    {
    }
    if forall slot :: slot in slots ==> SlotOk(slot) {
      forall shape | shape in multiset(shapes)
        ensures ShapeOk(shape)
      {
        var i :| 0 <= i < |shapes| && shapes[i] == shape;
        assert slots[i] in slots;
      }
    }
    if forall shape :: shape in multiset(shapes) ==> ShapeOk(shape) {
      forall slot | slot in slots
        ensures SlotOk(slot)
      {
        var i :| 0 <= i < |slots| && slots[i] == slot;
        assert shapes[i] in multiset(shapes);
      }
    }
  }

  lemma {:induction false} TotalFromSum(slots: seq<Slot>)
    ensures BackendTotal(slots) == |Sum(slots, SlotBackends)|
  {
    if slots != [] {
      TotalFromSum(slots[..|slots| - 1]);
      SumWithout(slots, |slots| - 1, SlotBackends);
      assert Without(slots, |slots| - 1) == slots[..|slots| - 1];
    }
  }

  lemma KeysDistinct(slots: seq<Slot>)
    ensures DistinctKeys(slots) <==> Distinct(Map(slots, KeyOf))
  {
    if Distinct(Map(slots, KeyOf)) {
      forall i, j | 0 <= i < j < |slots|
        ensures KeyOf(slots[i]) != KeyOf(slots[j])
      {
        assert Map(slots, KeyOf)[i] != Map(slots, KeyOf)[j];
      }
    }
  }

  lemma FitFromShape(a: seq<Slot>, b: seq<Slot>)
    requires multiset(Map(a, ShapeOfSlot)) == multiset(Map(b, ShapeOfSlot))
    ensures SlotsFit(a) <==> SlotsFit(b)
  {
    assert |multiset(Map(a, ShapeOfSlot))| == |multiset(Map(b, ShapeOfSlot))|;
    OkFromShape(a);
    OkFromShape(b);
    ImagesReordered(a, b, ShapeOfSlot, KeyOf);
    DistinctPermuted(Map(a, KeyOf), Map(b, KeyOf));
    KeysDistinct(a);
    KeysDistinct(b);
    TotalFromSum(a);
    TotalFromSum(b);
    SumReordered(a, b, ShapeOfSlot, SlotBackends);
  }

  function VipOf(service: Service): IP { service.vip }

  lemma VipsFromShape(a: seq<Service>, b: seq<Service>)
    requires multiset(Map(a, ShapeOfService)) == multiset(Map(b, ShapeOfService))
    requires forall service :: service in a ==> Plain(service.vip)
    ensures forall service :: service in b ==> Plain(service.vip)
  {
    ImagesReordered(a, b, ShapeOfService, VipOf);
    forall service | service in b
      ensures Plain(service.vip)
    {
      var i :| 0 <= i < |b| && b[i] == service;
      assert Map(b, VipOf)[i] in multiset(Map(a, VipOf));
      var j :| 0 <= j < |a| && Map(a, VipOf)[j] == service.vip;
      assert a[j] in a;
    }
  }

  lemma EntriesFromShape(a: seq<Slot>, b: seq<Slot>)
    requires multiset(Map(a, ShapeOfSlot)) == multiset(Map(b, ShapeOfSlot)) && DistinctKeys(a)
    ensures Sort(Map(a, EntryOf), EntryLess) == Sort(Map(b, EntryOf), EntryLess)
  {
    forall x, y | ShapeOfSlot(x) == ShapeOfSlot(y)
      ensures EntryOf(x) == EntryOf(y)
    {
      EntryFromShape(x, y);
    }
    ImagesReordered(a, b, ShapeOfSlot, EntryOf);
    var entries := Map(a, EntryOf);
    Orders();
    forall x, y | x in entries && y in entries && x != y
      ensures EntryLess(x, y) || EntryLess(y, x)
    {
      var i :| 0 <= i < |a| && entries[i] == x;
      var j :| 0 <= j < |a| && entries[j] == y;
      assert KeyOf(a[i]) != KeyOf(a[j]);
      KeyOrder(x.key, y.key, x.key);
    }
    SortCanonical(entries, Map(b, EntryOf), EntryLess);
  }

  /** Reordering Services, ports or backends changes neither acceptance nor the tables. */
  lemma CompileIsCanonical(a: Snapshot, b: Snapshot)
    requires Reordered(a, b)
    ensures Acceptable(a) <==> Acceptable(b)
    ensures Acceptable(a) ==> CompiledTables(a) == CompiledTables(b)
  {
    assert |multiset(Map(a.services, ShapeOfService))| == |multiset(Map(b.services, ShapeOfService))|;
    SlotsReordered(a, b);
    var x, y := Flatten(a.services), Flatten(b.services);
    FitFromShape(x, y);
    if forall service :: service in a.services ==> Plain(service.vip) {
      VipsFromShape(a.services, b.services);
    }
    if forall service :: service in b.services ==> Plain(service.vip) {
      VipsFromShape(b.services, a.services);
    }
    if Acceptable(a) && a.services != [] {
      EntriesFromShape(x, y);
    }
  }

  // ---- Acceptance ----

  // An IPv6 address outside ::ffff:0:0/96.
  predicate Ordinary(a: IP) {
    && a.IPv6?
    && !((forall i :: 0 <= i < 10 ==> a.bytes[i] == 0) && a.bytes[10] == 255 && a.bytes[11] == 255)
  }

  predicate Sound(port: Port) {
    && port.port != 0 && (port.protocol == 6 || port.protocol == 17)
    && forall b :: b in port.backends ==> Ordinary(b.address) && b.port != 0
  }

  // One address, number and protocol.
  predicate Collide(a: Slot, b: Slot) {
    a.vip == b.vip && a.port.port == b.port.port && a.port.protocol == b.port.protocol
  }

  lemma OrdinaryIsPlain(a: IP)
    ensures Ordinary(a) <==> Plain(a)
  {
    if a.IPv6? {
      assert forall i :: 0 <= i < 10 ==> a.bytes[i] == a.bytes[..10][i];
      assert (forall i :: 0 <= i < 10 ==> a.bytes[i] == 0) <==> a.bytes[..10] == [0, 0, 0, 0, 0, 0, 0, 0, 0, 0];
    }
  }

  lemma SoundIsOk(vip: IP, port: Port)
    ensures Sound(port) <==> SlotOk(Slot(vip, port))
  {
    forall b | b in port.backends
      ensures Ordinary(b.address) <==> Plain(b.address)
    {
      OrdinaryIsPlain(b.address);
    }
  }

  /** The slots of a snapshot are the ports of its Services, each with its Service's address. */
  lemma {:induction false} FlattenExactly(services: seq<Service>, slot: Slot)
    ensures slot in Flatten(services) <==>
              exists s :: s in services && s.vip == slot.vip && slot.port in s.ports
  {
    if services != [] {
      var n := |services| - 1;
      var last := services[n];
      FlattenExactly(services[..n], slot);
      assert services == services[..n] + [last];
      assert slot in SlotsOf(last) <==> last.vip == slot.vip && slot.port in last.ports by {
        if last.vip == slot.vip && slot.port in last.ports {
          var k :| 0 <= k < |last.ports| && last.ports[k] == slot.port;
          assert SlotsOf(last)[k] == slot;
        }
      }
    }
  }

  lemma {:induction false} SoundSlots(services: seq<Service>)
    ensures (forall slot :: slot in Flatten(services) ==> SlotOk(slot)) <==>
              forall s, port :: s in services && port in s.ports ==> Sound(port)
  {
    if forall slot :: slot in Flatten(services) ==> SlotOk(slot) {
      forall s, port | s in services && port in s.ports
        ensures Sound(port)
      {
        FlattenExactly(services, Slot(s.vip, port));
        SoundIsOk(s.vip, port);
      }
    }
    if forall s, port :: s in services && port in s.ports ==> Sound(port) {
      forall slot | slot in Flatten(services)
        ensures SlotOk(slot)
      {
        FlattenExactly(services, slot);
        SoundIsOk(slot.vip, slot.port);
      }
    }
  }

  lemma {:induction false} CollisionsAreKeys(services: seq<Service>)
    requires forall s :: s in services ==> Plain(s.vip)
    ensures var slots := Flatten(services);
            DistinctKeys(slots) <==> forall i, j :: 0 <= i < j < |slots| ==> !Collide(slots[i], slots[j])
  {
    var slots := Flatten(services);
    forall i, j | 0 <= i < j < |slots|
      ensures KeyOf(slots[i]) == KeyOf(slots[j]) <==> Collide(slots[i], slots[j])
    {
      FlattenExactly(services, slots[i]);
      FlattenExactly(services, slots[j]);
    }
  }

  /** A snapshot compiles if and only if it is empty, or: node and VIPs are ordinary IPv6; every port has a number,
      next header 6 or 17 and backends with ordinary addresses and numbers; no two ports of one or more Services have
      address, number and protocol in common; and there are at most 65536 ports and 65536 backends. */
  lemma AcceptedExactly(s: Snapshot)
    ensures var slots := Flatten(s.services);
            Acceptable(s) <==>
              s.services == [] || (
                && Ordinary(s.node) && (forall service :: service in s.services ==> Ordinary(service.vip))
                && (forall service, port :: service in s.services && port in service.ports ==> Sound(port))
                && (forall i, j :: 0 <= i < j < |slots| ==> !Collide(slots[i], slots[j]))
                && |slots| <= 65536 && |Sum(slots, SlotBackends)| <= 65536)
  {
    OrdinaryIsPlain(s.node);
    forall service | service in s.services
      ensures Ordinary(service.vip) <==> Plain(service.vip)
    {
      OrdinaryIsPlain(service.vip);
    }
    SoundSlots(s.services);
    TotalFromSum(Flatten(s.services));
    if forall service :: service in s.services ==> Plain(service.vip) {
      CollisionsAreKeys(s.services);
    }
  }
}
