// The table compiler: a service model flattened into offset/count ranges the datapath indexes.
module Tables {
  import opened Net
  import opened Sorting
  import D = Datapath

  const MAX_TABLE_ENTRIES := 65536

  // NotIPv6 is an IPv4 or absent address.
  datatype IP = NotIPv6 | IPv6(bytes: Address)
  datatype Backend = Backend(address: IP, port: Word)
  datatype Port = Port(protocol: Byte, port: Word, backends: seq<Backend>)
  datatype Service = Service(vip: IP, ports: seq<Port>)
  datatype Snapshot = Snapshot(node: IP, services: seq<Service>)

  datatype Compiled = Compiled(node: Address, services: map<D.ServiceKey, D.ServiceValue>,
                               backends: seq<D.BackendValue>)
  datatype Result = Ok(tables: Compiled) | Invalid

  // One service port with its VIP, and the sorted form of it that is laid out.
  datatype Slot = Slot(vip: IP, port: Port)
  datatype Entry = Entry(key: D.ServiceKey, backends: seq<D.BackendValue>)

  // ---- Orders ----

  function ByteRank(b: Byte): int { b }

  predicate AddressLess(a: Address, b: Address) {
    Lex(a, b, ByteRank)
  }

  predicate BackendLess(a: D.BackendValue, b: D.BackendValue) {
    if a.address != b.address then AddressLess(a.address, b.address) else a.port < b.port
  }

  predicate KeyLess(a: D.ServiceKey, b: D.ServiceKey) {
    if a.vip != b.vip then AddressLess(a.vip, b.vip)
    else if a.protocol != b.protocol then a.protocol < b.protocol
    else a.port < b.port
  }

  predicate EntryLess(a: Entry, b: Entry) {
    KeyLess(a.key, b.key)
  }

  lemma AddressOrder(a: Address, b: Address, c: Address)
    ensures !(AddressLess(a, b) && AddressLess(b, a))
    ensures a != b ==> AddressLess(a, b) || AddressLess(b, a)
    ensures AddressLess(a, b) && AddressLess(b, c) ==> AddressLess(a, c)
  {
    if AddressLess(a, b) {
      LexAsymmetric(a, b, ByteRank);
      if AddressLess(b, c) {
        LexTransitive(a, b, c, ByteRank);
      }
    }
    if a != b {
      LexTotal(a, b, ByteRank);
    }
  }

  lemma BackendOrder(a: D.BackendValue, b: D.BackendValue, c: D.BackendValue)
    ensures BackendLess(a, b) ==> !BackendLess(b, a)
    ensures a != b ==> BackendLess(a, b) || BackendLess(b, a)
    ensures !BackendLess(a, b) && !BackendLess(b, c) ==> !BackendLess(a, c)
  {
    AddressOrder(a.address, b.address, c.address);
    AddressOrder(b.address, a.address, c.address);
    AddressOrder(c.address, b.address, a.address);
    AddressOrder(c.address, a.address, b.address);
    AddressOrder(a.address, c.address, b.address);
  }

  // keyLess is a strict total order on keys.
  lemma KeyOrder(a: D.ServiceKey, b: D.ServiceKey, c: D.ServiceKey)
    ensures KeyLess(a, b) ==> !KeyLess(b, a)
    ensures a != b ==> KeyLess(a, b) || KeyLess(b, a)
    ensures !KeyLess(a, b) && !KeyLess(b, c) ==> !KeyLess(a, c)
  {
    AddressOrder(a.vip, b.vip, c.vip);
    AddressOrder(b.vip, a.vip, c.vip);
    AddressOrder(c.vip, b.vip, a.vip);
    AddressOrder(c.vip, a.vip, b.vip);
    AddressOrder(a.vip, c.vip, b.vip);
  }

  lemma Orders()
    ensures WeakOrder(BackendLess) && WeakOrder(EntryLess)
  {
    forall a, b, c
      ensures BackendLess(a, b) ==> !BackendLess(b, a)
      ensures !BackendLess(a, b) && !BackendLess(b, c) ==> !BackendLess(a, c)
    {
      BackendOrder(a, b, c);
    }
    forall a: Entry, b: Entry, c: Entry
      ensures EntryLess(a, b) ==> !EntryLess(b, a)
      ensures !EntryLess(a, b) && !EntryLess(b, c) ==> !EntryLess(a, c)
    {
      KeyOrder(a.key, b.key, c.key);
    }
  }

  // ---- Acceptance, stated without an order of checking ----

  predicate Mapped(a: Address) {
    a[..10] == [0, 0, 0, 0, 0, 0, 0, 0, 0, 0] && a[10] == 0xff && a[11] == 0xff
  }

  predicate Plain(a: IP) {
    a.IPv6? && !Mapped(a.bytes)
  }

  function Bytes(a: IP): Address {
    match a
    case IPv6(bytes) => bytes
    case NotIPv6 => seq(16, i => 0)
  }

  function KeyOf(slot: Slot): D.ServiceKey {
    D.ServiceKey(Bytes(slot.vip), slot.port.port, slot.port.protocol)
  }

  predicate BackendOk(b: Backend) {
    Plain(b.address) && b.port != 0
  }

  predicate SlotOk(slot: Slot) {
    && slot.port.port != 0 && (slot.port.protocol == D.TCP || slot.port.protocol == D.UDP)
    && forall b :: b in slot.port.backends ==> BackendOk(b)
  }

  function Value(b: Backend): D.BackendValue {
    D.BackendValue(Bytes(b.address), b.port)
  }

  function EntryOf(slot: Slot): Entry {
    Entry(KeyOf(slot), Sort(Map(slot.port.backends, Value), BackendLess))
  }

  function SlotsOf(service: Service): (r: seq<Slot>)
    ensures |r| == |service.ports| && forall i :: 0 <= i < |r| ==> r[i] == Slot(service.vip, service.ports[i])
  {
    seq(|service.ports|, i requires 0 <= i < |service.ports| => Slot(service.vip, service.ports[i]))
  }

  function Flatten(services: seq<Service>): seq<Slot> {
    if services == [] then [] else Flatten(services[..|services| - 1]) + SlotsOf(services[|services| - 1])
  }

  function BackendTotal(slots: seq<Slot>): nat {
    if slots == [] then 0 else BackendTotal(slots[..|slots| - 1]) + |slots[|slots| - 1].port.backends|
  }

  predicate DistinctKeys(slots: seq<Slot>) {
    forall i, j :: 0 <= i < j < |slots| ==> KeyOf(slots[i]) != KeyOf(slots[j])
  }

  predicate SlotsFit(slots: seq<Slot>) {
    && (forall slot :: slot in slots ==> SlotOk(slot))
    && DistinctKeys(slots) && |slots| <= MAX_TABLE_ENTRIES && BackendTotal(slots) <= MAX_TABLE_ENTRIES
  }

  predicate Acceptable(s: Snapshot) {
    s.services == [] || (
      && Plain(s.node)
      && (forall service :: service in s.services ==> Plain(service.vip))
      && SlotsFit(Flatten(s.services)))
  }

  // ---- Layout ----

  function Concat(entries: seq<Entry>): seq<D.BackendValue> {
    if entries == [] then [] else Concat(entries[..|entries| - 1]) + entries[|entries| - 1].backends
  }

  // Offsets and counts are truncated to 32 bits, as the source casts them.
  function Range(offset: nat, count: nat): D.ServiceValue {
    D.ServiceValue(offset % 0x1_0000_0000, count % 0x1_0000_0000)
  }

  function Ranges(entries: seq<Entry>): map<D.ServiceKey, D.ServiceValue> {
    if entries == [] then map[]
    else
      var front, last := entries[..|entries| - 1], entries[|entries| - 1];
      Ranges(front)[last.key := Range(|Concat(front)|, |last.backends|)]
  }

  function SortedEntries(s: Snapshot): seq<Entry> {
    Sort(Map(Flatten(s.services), EntryOf), EntryLess)
  }

  function CompiledTables(s: Snapshot): Compiled {
    if s.services == [] then Compiled(seq(16, i => 0), map[], [])
    else Compiled(Bytes(s.node), Ranges(SortedEntries(s)), Concat(SortedEntries(s)))
  }

  // ---- The compiler ----

  lemma {:induction false} FlattenPrefix(services: seq<Service>, i: nat)
    requires i < |services|
    ensures Flatten(services[..i]) + SlotsOf(services[i]) == Flatten(services[..i + 1]) <= Flatten(services)
    decreases |services|
  {
    if i + 1 == |services| {
      assert services[..i + 1] == services;
    } else {
      var front := services[..|services| - 1];
      FlattenPrefix(front, i);
      assert front[..i] == services[..i] && front[..i + 1] == services[..i + 1];
    }
  }

  lemma {:induction false} BackendTotalStep(slots: seq<Slot>, slot: Slot)
    ensures BackendTotal(slots + [slot]) == BackendTotal(slots) + |slot.port.backends|
  {
    assert (slots + [slot])[..|slots|] == slots;
  }

  lemma {:induction false} BackendTotalPrefix(slots: seq<Slot>, n: nat)
    requires n <= |slots|
    ensures BackendTotal(slots[..n]) <= BackendTotal(slots)
  {
    if n == |slots| {
      assert slots[..n] == slots;
    } else {
      BackendTotalPrefix(slots[..|slots| - 1], n);
      assert slots[..|slots| - 1][..n] == slots[..n];
    }
  }

  // Dropping the tail of an acceptable list of slots leaves an acceptable one.
  lemma FitPrefix(slots: seq<Slot>, part: seq<Slot>)
    requires part <= slots && SlotsFit(slots)
    ensures SlotsFit(part)
  {
    BackendTotalPrefix(slots, |part|);
    assert part == slots[..|part|];
    assert forall slot :: slot in part ==> slot in slots;
  }

  // What may be added to a fitting prefix.
  lemma {:induction false} FitStep(slots: seq<Slot>, slot: Slot)
    requires SlotsFit(slots)
    ensures SlotsFit(slots + [slot]) <==>
              && SlotOk(slot) && |slots| < MAX_TABLE_ENTRIES
              && BackendTotal(slots) + |slot.port.backends| <= MAX_TABLE_ENTRIES
              && forall other :: other in slots ==> KeyOf(other) != KeyOf(slot)
  {
    BackendTotalStep(slots, slot);
    var all := slots + [slot];
    assert all[|slots|] == slot && forall i :: 0 <= i < |slots| ==> all[i] == slots[i];
    if DistinctKeys(all) {
      forall other | other in slots
        ensures KeyOf(other) != KeyOf(slot)
      {
        var i :| 0 <= i < |slots| && slots[i] == other;
        assert KeyOf(all[i]) != KeyOf(all[|slots|]);
      }
    }
  }

  // Validates and converts one port's backends, then sorts them.
  method PortEntry(slot: Slot) returns (ok: bool, entry: Entry)
    ensures ok <==> forall b :: b in slot.port.backends ==> BackendOk(b)
    ensures ok ==> entry == EntryOf(slot)
  {
    entry := Entry(KeyOf(slot), []);
    var values := [];
    for k := 0 to |slot.port.backends|
      invariant forall b :: b in slot.port.backends[..k] ==> BackendOk(b)
      invariant values == Map(slot.port.backends[..k], Value)
    {
      var b := slot.port.backends[k];
      assert b in slot.port.backends;
      if !Plain(b.address) || b.port == 0 {
        return false, entry;
      }
      values := values + [Value(b)];
    }
    assert slot.port.backends[..|slot.port.backends|] == slot.port.backends;
    ok := true;
    entry := Entry(KeyOf(slot), Sort(values, BackendLess));
  }

  method Layout(node: Address, entries: seq<Entry>) returns (tables: Compiled)
    ensures tables == Compiled(node, Ranges(entries), Concat(entries))
  {
    var services: map<D.ServiceKey, D.ServiceValue> := map[];
    var backends: seq<D.BackendValue> := [];
    for k := 0 to |entries|
      invariant services == Ranges(entries[..k]) && backends == Concat(entries[..k])
    {
      assert entries[..k + 1][..k] == entries[..k];
      var offset := |backends|;
      backends := backends + entries[k].backends;
      services := services[entries[k].key := Range(offset, |entries[k].backends|)];
    }
    assert entries[..|entries|] == entries;
    tables := Compiled(node, services, backends);
  }

  // What the collecting loops keep: the slots seen so far fit, with their entries, keys and backend count.
  ghost predicate Collected(slots: seq<Slot>, entries: seq<Entry>, seen: set<D.ServiceKey>, count: nat) {
    SlotsFit(slots) && entries == Map(slots, EntryOf) && count == BackendTotal(slots) && SeenKeys(slots, seen)
  }

  ghost predicate SeenKeys(slots: seq<Slot>, seen: set<D.ServiceKey>) {
    && (forall slot :: slot in slots ==> KeyOf(slot) in seen)
    && (forall key :: key in seen ==> exists slot :: slot in slots && KeyOf(slot) == key)
  }

  lemma SeenStep(slots: seq<Slot>, slot: Slot, seen: set<D.ServiceKey>)
    requires SeenKeys(slots, seen)
    ensures SeenKeys(slots + [slot], seen + {KeyOf(slot)})
    ensures KeyOf(slot) !in seen <==> forall other :: other in slots ==> KeyOf(other) != KeyOf(slot)
  {
    var all := slots + [slot];
    forall key | key in seen + {KeyOf(slot)}
      ensures exists x :: x in all && KeyOf(x) == key
    {
      if key in seen {
        var x :| x in slots && KeyOf(x) == key;
        assert x in all;
      } else {
        assert slot in all && KeyOf(slot) == key;
      }
    }
  }

  lemma CollectStep(slots: seq<Slot>, slot: Slot, entries: seq<Entry>, seen: set<D.ServiceKey>, count: nat)
    requires Collected(slots, entries, seen, count)
    ensures SlotsFit(slots + [slot]) <==>
              && SlotOk(slot) && |entries| < MAX_TABLE_ENTRIES && count + |slot.port.backends| <= MAX_TABLE_ENTRIES
              && KeyOf(slot) !in seen
    ensures SlotsFit(slots + [slot]) ==>
              Collected(slots + [slot], entries + [EntryOf(slot)], seen + {KeyOf(slot)}, count + |slot.port.backends|)
  {
    FitStep(slots, slot);
    BackendTotalStep(slots, slot);
    SeenStep(slots, slot, seen);
    MapAppend(slots, slot, EntryOf);
  }

  // Checks one port against what is collected, and collects it.
  method AddPort(slot: Slot, ghost slots: seq<Slot>, entries: seq<Entry>, seen: set<D.ServiceKey>, count: nat)
    returns (ok: bool, entries': seq<Entry>, seen': set<D.ServiceKey>, count': nat)
    requires Collected(slots, entries, seen, count)
    ensures ok <==> SlotsFit(slots + [slot])
    ensures ok ==> Collected(slots + [slot], entries', seen', count')
  {
    ok, entries', seen', count' := false, entries, seen, count;
    var port := slot.port;
    CollectStep(slots, slot, entries, seen, count);
    if port.port == 0 || (port.protocol != D.TCP && port.protocol != D.UDP) {
      return;
    }
    if KeyOf(slot) in seen || |entries| == MAX_TABLE_ENTRIES {
      return;
    }
    if |port.backends| > MAX_TABLE_ENTRIES - count {
      return;
    }
    var valid, entry := PortEntry(slot);
    if valid {
      ok, entries', seen', count' := true, entries + [entry], seen + {KeyOf(slot)}, count + |port.backends|;
    }
  }

  // Collects one service's ports after those already collected.
  method AddPorts(service: Service, ghost before: seq<Slot>, entries: seq<Entry>, seen: set<D.ServiceKey>, count: nat)
    returns (ok: bool, entries': seq<Entry>, seen': set<D.ServiceKey>, count': nat)
    requires Collected(before, entries, seen, count)
    ensures ok <==> SlotsFit(before + SlotsOf(service))
    ensures ok ==> Collected(before + SlotsOf(service), entries', seen', count')
  {
    ok, entries', seen', count' := true, entries, seen, count;
    ghost var slots := SlotsOf(service);
    assert before + slots[..0] == before;
    for j := 0 to |service.ports|
      invariant ok && Collected(before + slots[..j], entries', seen', count')
    {
      ghost var done := before + slots[..j];
      var slot := Slot(service.vip, service.ports[j]);
      AppendNext(before, slots, j);
      ok, entries', seen', count' := AddPort(slot, done, entries', seen', count');
      if !ok {
        if SlotsFit(before + slots) {
          FitPrefix(before + slots, done + [slot]);
        }
        return;
      }
    }
    assert slots[..|service.ports|] == slots;
  }

  method CollectServices(services: seq<Service>) returns (ok: bool, entries: seq<Entry>)
    ensures ok <==> (forall service :: service in services ==> Plain(service.vip)) && SlotsFit(Flatten(services))
    ensures ok ==> entries == Map(Flatten(services), EntryOf)
  {
    var seen: set<D.ServiceKey>, count: nat := {}, 0;
    ok, entries := true, [];
    for i := 0 to |services|
      invariant ok && forall service :: service in services[..i] ==> Plain(service.vip)
      invariant Collected(Flatten(services[..i]), entries, seen, count)
    {
      FlattenPrefix(services, i);
      assert services[i] in services;
      if !Plain(services[i].vip) {
        return false, [];
      }
      ok, entries, seen, count := AddPorts(services[i], Flatten(services[..i]), entries, seen, count);
      if !ok {
        if SlotsFit(Flatten(services)) {
          FitPrefix(Flatten(services), Flatten(services[..i + 1]));
        }
        return false, [];
      }
    }
    assert services[..|services|] == services;
  }

  method Compile(s: Snapshot) returns (r: Result)
    ensures r == if Acceptable(s) then Ok(CompiledTables(s)) else Invalid
  {
    if |s.services| == 0 {
      return Ok(Compiled(seq(16, i => 0), map[], []));
    }
    if !Plain(s.node) {
      return Invalid;
    }
    var ok, entries := CollectServices(s.services);
    if !ok {
      return Invalid;
    }
    var tables := Layout(Bytes(s.node), Sort(entries, EntryLess));
    r := Ok(tables);
  }
}
