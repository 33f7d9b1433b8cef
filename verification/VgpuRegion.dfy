/** The shared region of the vGPU interception library: 16 slots with a live prefix, edited in place. */
module VgpuRegion {
  const WORD: nat := 0x1_0000_0000_0000_0000
  const SLOTS: nat := 16

  type Uint64 = n: nat | n < WORD

  /** The characters of a device UUID, which are ASCII, so that one character is one byte. */
  type Name = string

  /** A C string in a field of 96 bytes. */
  type Uuid = u: string | |u| == 96 witness Zeros(96)

  function Zeros(n: nat): (r: string)
    ensures |r| == n && forall i :: 0 <= i < n ==> r[i] == '\0'
  {
    if n == 0 then [] else ['\0'] + Zeros(n - 1)
  }

  const ZERO_UUID: Uuid := Zeros(96)

  predicate IsZero(u: Uuid) {
    forall i :: 0 <= i < 96 ==> u[i] == '\0'
  }

  /** Memory in MiB and cores in percent, as decoded from the pod's annotation. */
  datatype Device = Device(usedMem: int, usedCores: int)

  type DevMap = map<Name, Device>

  datatype Slot = Slot(uuid: Uuid, limit: Uint64, smLimit: Uint64)

  /** Go's uint64(x) for a signed x. */
  function ToUint64(x: int): Uint64 {
    x % WORD
  }

  /** uint64(dev.Usedmem) << 20 */
  function MemoryOf(dev: Device): Uint64 {
    (ToUint64(dev.usedMem) * 0x10_0000) % WORD
  }

  function CoresOf(dev: Device): Uint64 {
    ToUint64(dev.usedCores)
  }

  /** MiB become bytes, modulo 2^64: a negative quantity wraps around to just below 2^64. */
  lemma QuantitiesAre(dev: Device)
    ensures MemoryOf(dev) == (dev.usedMem * 1048576) % 18446744073709551616
    ensures CoresOf(dev) == dev.usedCores % 18446744073709551616
    ensures 0 <= dev.usedMem < 2147483648 ==> MemoryOf(dev) == dev.usedMem * 1048576
    ensures 0 <= dev.usedCores < 2147483648 ==> CoresOf(dev) == dev.usedCores
    ensures -2147483648 <= dev.usedMem < 0 ==> MemoryOf(dev) == 18446744073709551616 + dev.usedMem * 1048576
    ensures -2147483648 <= dev.usedCores < 0 ==> CoresOf(dev) == 18446744073709551616 + dev.usedCores
  {
    ModTimes(dev.usedMem);
  }

  lemma ModTimes(x: int)
    ensures (x % 18446744073709551616) * 1048576 % 18446744073709551616 == x * 1048576 % 18446744073709551616
  {
    var q, rest := x / 18446744073709551616, x % 18446744073709551616;
    assert x * 1048576 == rest * 1048576 + (q * 1048576) * 18446744073709551616;
    MultipleVanishes(rest * 1048576, q * 1048576);
  }

  lemma MultipleVanishes(a: int, m: int)
    ensures (a + m * 18446744073709551616) % 18446744073709551616 == a % 18446744073709551616
  {
  }

  /** The first 40 bytes, under which a slot is looked up. */
  function KeyOf(u: Uuid): Name {
    u[..40]
  }

  /** ConvertUUID fits names of up to 95 bytes; a longer one is an index panic. */
  function ConvertUUID(name: Name): Uuid
    requires |name| < 96
  {
    name + Zeros(96 - |name|)
  }

  /** A stored name is found again exactly when it is 40 bytes long, the length of a GPU UUID. */
  lemma StoredNameIsFoundIff(name: Name)
    requires |name| < 96
    ensures KeyOf(ConvertUUID(name)) == name <==> |name| == 40
    ensures name <= ConvertUUID(name) && forall i :: |name| <= i < 96 ==> ConvertUUID(name)[i] == '\0'
  {
    assert |name| == 40 ==> (name + Zeros(96 - |name|))[..40] == name;
  }

  function KeyAt(live: seq<Slot>, i: nat): Name
    requires i < |live|
  {
    KeyOf(live[i].uuid)
  }

  function Keys(live: seq<Slot>): set<Name> {
    set s | s in live :: KeyOf(s.uuid)
  }

  predicate Distinct(live: seq<Slot>) {
    forall i, j :: 0 <= i < j < |live| ==> KeyAt(live, i) != KeyAt(live, j)
  }

  predicate GpuNames(devs: DevMap) {
    forall n :: n in devs ==> |n| == 40
  }

  predicate HasLimits(s: Slot, dev: Device) {
    s.limit == MemoryOf(dev) && s.smLimit == CoresOf(dev)
  }

  /** No earlier live slot holds the same UUID. */
  predicate FirstAt(live: seq<Slot>, i: nat)
    requires i < |live|
  {
    KeyAt(live, i) !in Keys(live[..i])
  }

  /** The first live slot of each listed device gets the device's limits. */
  function Updated(live: seq<Slot>, devs: DevMap): (r: seq<Slot>)
    ensures |r| == |live|
  {
    seq(|live|, i requires 0 <= i < |live| =>
      if KeyAt(live, i) in devs && FirstAt(live, i)
      then Slot(live[i].uuid, MemoryOf(devs[KeyAt(live, i)]), CoresOf(devs[KeyAt(live, i)]))
      else live[i])
  }

  /** `added` holds one slot, with its limits, for each device, in some order. */
  ghost predicate SlotsFor(added: seq<Slot>, devs: DevMap) {
    && |added| == |devs|
    && Keys(added) == devs.Keys
    && Distinct(added)
    && forall i :: 0 <= i < |added| ==> KeyAt(added, i) in devs && HasLimits(added[i], devs[KeyAt(added, i)])
  }

  /** Attaching in some map order: known devices are updated, the others get new slots behind. */
  ghost predicate Attached(before: seq<Slot>, devs: DevMap, after: seq<Slot>) {
    && |before| <= |after|
    && after[..|before|] == Updated(before, devs)
    && SlotsFor(after[|before|..], devs - Keys(before))
  }

  /** Every device has a slot that holds its name and limits, and there are no other slots. */
  ghost predicate Stored(added: seq<Slot>, devs: DevMap) {
    |added| == |devs| && forall n :: n in devs ==> |n| < 96 && SlotOf(n, devs[n]) in added
  }

  /** All names fit into the table's fields, with a zero byte behind. */
  predicate Storable(devs: DevMap) {
    forall n :: n in devs ==> |n| < 96
  }

  function ClearedSlot(s: Slot, names: set<Name>): Slot {
    if KeyOf(s.uuid) in names then Slot(ZERO_UUID, 0, 0) else s
  }

  /** The live slots whose devices are not removed. */
  function Survivors(live: seq<Slot>, names: set<Name>): (r: seq<Slot>)
    ensures |r| <= |live|
  {
    if live == [] then []
    else
      (if KeyOf(live[0].uuid) in names then [] else [live[0]]) + Survivors(live[1..], names)
  }

  /** Detaching clears slots and shortens the prefix, but moves nothing. */
  function Detached(live: seq<Slot>, names: set<Name>): (r: seq<Slot>)
    ensures |r| == |Survivors(live, names)|
  {
    seq(|Survivors(live, names)|, i requires 0 <= i < |Survivors(live, names)| => ClearedSlot(live[i], names))
  }

  class SharedRegion {
    var num: nat
    const uuids: array<Uuid>
    const limit: array<Uint64>
    const smLimit: array<Uint64>

    ghost predicate Valid()
      reads this
    {
      uuids.Length == limit.Length == smLimit.Length == SLOTS && limit != smLimit && num <= SLOTS
    }

    function SlotAt(i: nat): Slot
      requires Valid() && i < SLOTS
      reads this, uuids, limit, smLimit
    {
      Slot(uuids[i], limit[i], smLimit[i])
    }

    function Live(): (r: seq<Slot>)
      requires Valid()
      reads this, uuids, limit, smLimit
      ensures |r| == num
    {
      seq(num, i requires 0 <= i < num && Valid() reads this, uuids, limit, smLimit => SlotAt(i))
    }

    /** Limits of known devices are overwritten, and the devices taken off the list. */
    method UpdateKnown(devs: DevMap) returns (rest: DevMap)
      requires Valid()
      modifies limit, smLimit
      ensures Valid() && Live() == Updated(old(Live()), devs)
      ensures rest == devs - Keys(old(Live()))
    {
      hide KeyOf, MemoryOf, CoresOf, Keys, Updated, FirstAt;
      rest := devs;
      ghost var live := Live();
      NoKeys();
      assert live[..0] == [];
      for i := 0 to num
        invariant Valid()
        invariant rest == devs - Keys(live[..i])
        invariant forall j :: 0 <= j < i ==> SlotAt(j) == Updated(live, devs)[j]
        invariant forall j :: i <= j < num ==> SlotAt(j) == live[j]
      {
        var name := KeyOf(uuids[i]);
        UpdateOne(live, devs, i);
        if name in rest {
          limit[i] := MemoryOf(rest[name]);
          smLimit[i] := CoresOf(rest[name]);
          rest := rest - {name};
        }
      }
      assert live[..num] == live;
    }

    /** New devices get the slots behind the live prefix, in an arbitrary order. */
    method AppendNew(devs: DevMap) returns (ok: bool)
      requires Valid()
      modifies this`num, uuids, limit, smLimit
      ensures Valid() && old(num) <= num && Live()[..old(num)] == old(Live())
      ensures ok ==> Stored(Live()[old(num)..], devs)
      ensures ok && GpuNames(devs) ==> SlotsFor(Live()[old(num)..], devs)
      ensures ok <==> old(num) + |devs| <= SLOTS && Storable(devs)
    {
      hide Shares, SlotsFor, SlotOf;
      var rest := devs;
      ghost var placed: DevMap := map[];
      SharesEnds(devs);
      ghost var added: seq<Slot> := [];
      while rest != map[]
        invariant Valid() && num == old(num) + |placed| && |placed| + |rest| == |devs|
        invariant Shares(placed, rest, devs)
        invariant Live() == old(Live()) + added
        invariant Stored(added, placed)
        invariant GpuNames(devs) ==> SlotsFor(added, placed)
        decreases |rest|
      {
        var name :| name in rest;
        var dev := rest[name];
        StillToPlace(placed, rest, devs, name);
        if num >= SLOTS || |name| >= 96 {
          return false;
        }
        WriteTail(name, dev);
        StepNew(added, placed, rest, devs, name);
        added := added + [SlotOf(name, dev)];
        placed := placed[name := dev];
        rest := rest - {name};
      }
      SharesAll(placed, rest, devs);
      assert Live()[old(num)..] == added;
      return true;
    }

    method WriteTail(name: Name, dev: Device)
      requires Valid() && num < SLOTS && |name| < 96
      modifies this`num, uuids, limit, smLimit
      ensures Valid() && num == old(num) + 1
      ensures Live() == old(Live()) + [SlotOf(name, dev)]
    {
      var tail := num;
      uuids[tail] := ConvertUUID(name);
      limit[tail] := MemoryOf(dev);
      smLimit[tail] := CoresOf(dev);
      num := num + 1;
    }

    /**
     The attach closure of ExecutePostMountActions; false stands for an index panic, when the table is
     full or a name too long.
     */
    method Attach(devs: DevMap) returns (ok: bool)
      requires Valid()
      modifies this`num, uuids, limit, smLimit
      ensures Valid() && old(num) <= num && Live()[..old(num)] == Updated(old(Live()), devs)
      ensures ok <==> old(num) + |devs - Keys(old(Live()))| <= 16 && Storable(devs - Keys(old(Live())))
      ensures ok ==> Stored(Live()[old(num)..], devs - Keys(old(Live())))
      ensures ok && GpuNames(devs) ==> Attached(old(Live()), devs, Live())
      // Of distinct UUIDs, every listed device has a slot with its memory in bytes and its cores.
      ensures ok && GpuNames(devs) && Distinct(old(Live())) ==>
                forall n :: n in devs ==> HasSlot(n, devs[n])
    {
      var rest := UpdateKnown(devs);
      ok := AppendNew(rest);
      if ok && GpuNames(devs) && Distinct(old(Live())) {
        forall n | n in devs
          ensures HasSlot(n, devs[n])
        {
          QuantitiesAre(devs[n]);
          hide Attached, Distinct, MemoryOf, CoresOf;
          var i := AttachedOnce(old(Live()), devs, Live(), n);
          assert Live()[i] == SlotAt(i);
        }
      }
    }

    /** Some live slot holds the device with its memory in bytes and its cores. */
    ghost predicate HasSlot(name: Name, dev: Device)
      requires Valid()
      reads this, uuids, limit, smLimit
    {
      exists i :: 0 <= i < num && uuids[i][..40] == name
                  && limit[i] == (dev.usedMem * 1048576) % 18446744073709551616
                  && smLimit[i] == dev.usedCores % 18446744073709551616
    }

    /** The detach closure of ExecutePostUnmountActions: clears from the last live slot to the first. */
    method Detach(names: set<Name>)
      requires Valid()
      modifies this`num, uuids, limit, smLimit
      ensures Valid() && Live() == Detached(old(Live()), names)
      // Every slot that was live and holds a removed device is zero, and all others are as they were.
      ensures forall i :: 0 <= i < old(num) ==> ClearedIf(old(SlotAt(i)), SlotAt(i), names)
    {
      hide KeyOf, Survivors;
      NoSurvivors(names);
      ghost var live := Live();
      assert live[num..] == [];
      var i := num;
      while i > 0
        invariant Valid() && 0 <= i <= |live|
        invariant num == i + |Survivors(live[i..], names)|
        invariant forall j :: 0 <= j < i ==> SlotAt(j) == live[j]
        invariant forall j :: i <= j < |live| ==> SlotAt(j) == ClearedSlot(live[j], names)
      {
        i := i - 1;
        OneSurvivor(live, names, i);
        if KeyOf(uuids[i]) in names {
          limit[i] := 0;
          smLimit[i] := 0;
          uuids[i] := ZERO_UUID;
          num := num - 1;
        }
      }
      assert live[0..] == live;
      ClearedAre(live, names);
      assert forall j | 0 <= j < |live| :: live[j] == old(SlotAt(j)) && SlotAt(j) == ClearedSlot(live[j], names);
    }

    /** addVGPUResource: 64-bit additions wrap around. */
    method AddResources(devs: DevMap)
      requires Valid()
      modifies limit, smLimit
      ensures Valid() && num == old(num)
      ensures Live() == Expanded(old(Live()), devs)
      ensures forall i :: 0 <= i < num ==> Grew(old(SlotAt(i)), SlotAt(i), devs)
    {
      ghost var live := Live();
      for i := 0 to num
        invariant Valid() && num == |live|
        invariant forall j :: 0 <= j < i ==> SlotAt(j) == Expanded(live, devs)[j]
        invariant forall j :: i <= j < num ==> SlotAt(j) == live[j]
      {
        var name := KeyOf(uuids[i]);
        assert SlotAt(i) == live[i];
        if name in devs {
          limit[i] := (limit[i] + MemoryOf(devs[name])) % WORD;
          smLimit[i] := (smLimit[i] + CoresOf(devs[name])) % WORD;
        }
      }
      ExpandedAre(live, devs);
      assert forall j | 0 <= j < num :: live[j] == old(SlotAt(j)) && SlotAt(j) == Expanded(live, devs)[j];
    }

    /** subVGPUResource */
    method SubResources(devs: DevMap)
      requires Valid()
      modifies limit, smLimit
      ensures Valid() && num == old(num)
      ensures Live() == Reduced(old(Live()), devs)
      ensures forall i :: 0 <= i < num ==> Shrank(old(SlotAt(i)), SlotAt(i), devs)
    {
      ghost var live := Live();
      for i := 0 to num
        invariant Valid() && num == |live|
        invariant forall j :: 0 <= j < i ==> SlotAt(j) == Reduced(live, devs)[j]
        invariant forall j :: i <= j < num ==> SlotAt(j) == live[j]
      {
        var name := KeyOf(uuids[i]);
        assert SlotAt(i) == live[i];
        if name in devs {
          limit[i] := (limit[i] - MemoryOf(devs[name])) % WORD;
          smLimit[i] := (smLimit[i] - CoresOf(devs[name])) % WORD;
        }
      }
      ReducedAre(live, devs);
      assert forall j | 0 <= j < num :: live[j] == old(SlotAt(j)) && SlotAt(j) == Reduced(live, devs)[j];
    }
  }

  function Grown(s: Slot, dev: Device): Slot {
    Slot(s.uuid, (s.limit + MemoryOf(dev)) % WORD, (s.smLimit + CoresOf(dev)) % WORD)
  }

  function Shrunk(s: Slot, dev: Device): Slot {
    Slot(s.uuid, (s.limit - MemoryOf(dev)) % WORD, (s.smLimit - CoresOf(dev)) % WORD)
  }

  function Expanded(live: seq<Slot>, devs: DevMap): (r: seq<Slot>)
    ensures |r| == |live|
  {
    seq(|live|, i requires 0 <= i < |live| =>
      if KeyAt(live, i) in devs then Grown(live[i], devs[KeyAt(live, i)]) else live[i])
  }

  function Reduced(live: seq<Slot>, devs: DevMap): (r: seq<Slot>)
    ensures |r| == |live|
  {
    seq(|live|, i requires 0 <= i < |live| =>
      if KeyAt(live, i) in devs then Shrunk(live[i], devs[KeyAt(live, i)]) else live[i])
  }

  // What the operations mean in bytes.

  /** A listed device's slot has changed by its memory in bytes and its cores, modulo 2^64. */
  predicate Grew(was: Slot, now: Slot, devs: DevMap) {
    && now.uuid == was.uuid
    && if was.uuid[..40] in devs
       then
         && now.limit == (was.limit + devs[was.uuid[..40]].usedMem * 1048576) % 18446744073709551616
         && now.smLimit == (was.smLimit + devs[was.uuid[..40]].usedCores) % 18446744073709551616
       else now == was
  }

  lemma ExpandedAre(live: seq<Slot>, devs: DevMap)
    ensures forall i :: 0 <= i < |live| ==> Grew(live[i], Expanded(live, devs)[i], devs)
  {
    forall i | 0 <= i < |live|
      ensures Grew(live[i], Expanded(live, devs)[i], devs)
    {
      if KeyAt(live, i) in devs {
        GrownIs(live[i], devs[KeyAt(live, i)]);
      }
    }
  }

  lemma GrownIs(s: Slot, dev: Device)
    ensures var g := Grown(s, dev);
            && g.uuid == s.uuid
            && g.limit == (s.limit + dev.usedMem * 1048576) % 18446744073709551616
            && g.smLimit == (s.smLimit + dev.usedCores) % 18446744073709551616
  {
    QuantitiesAre(dev);
    AddMod(s.limit, dev.usedMem * 1048576);
    AddMod(s.smLimit, dev.usedCores);
  }

  /** A listed device's slot has changed by its memory in bytes and its cores, modulo 2^64. */
  predicate Shrank(was: Slot, now: Slot, devs: DevMap) {
    && now.uuid == was.uuid
    && if was.uuid[..40] in devs
       then
         && now.limit == (was.limit - devs[was.uuid[..40]].usedMem * 1048576) % 18446744073709551616
         && now.smLimit == (was.smLimit - devs[was.uuid[..40]].usedCores) % 18446744073709551616
       else now == was
  }

  lemma ReducedAre(live: seq<Slot>, devs: DevMap)
    ensures forall i :: 0 <= i < |live| ==> Shrank(live[i], Reduced(live, devs)[i], devs)
  {
    forall i | 0 <= i < |live|
      ensures Shrank(live[i], Reduced(live, devs)[i], devs)
    {
      if KeyAt(live, i) in devs {
        ShrunkIs(live[i], devs[KeyAt(live, i)]);
      }
    }
  }

  lemma ShrunkIs(s: Slot, dev: Device)
    ensures var g := Shrunk(s, dev);
            && g.uuid == s.uuid
            && g.limit == (s.limit - dev.usedMem * 1048576) % 18446744073709551616
            && g.smLimit == (s.smLimit - dev.usedCores) % 18446744073709551616
  {
    QuantitiesAre(dev);
    SubMod(s.limit, dev.usedMem * 1048576);
    SubMod(s.smLimit, dev.usedCores);
  }

  lemma AddMod(a: int, b: int)
    ensures (a + b % 18446744073709551616) % 18446744073709551616 == (a + b) % 18446744073709551616
  {
  }

  lemma SubMod(a: int, b: int)
    ensures (a - b % 18446744073709551616) % 18446744073709551616 == (a - b) % 18446744073709551616
  {
  }

  /** The slot of a removed device is zero, any other untouched. */
  predicate ClearedIf(was: Slot, now: Slot, names: set<Name>) {
    if was.uuid[..40] in names then IsZero(now.uuid) && now.limit == 0 && now.smLimit == 0 else now == was
  }

  lemma ClearedAre(live: seq<Slot>, names: set<Name>)
    ensures forall i :: 0 <= i < |live| ==> ClearedIf(live[i], ClearedSlot(live[i], names), names)
  {
  }

  /** Taking back an expansion restores every limit, also when an addition wrapped around. */
  lemma ReducedUndoesExpanded(live: seq<Slot>, devs: DevMap)
    ensures Reduced(Expanded(live, devs), devs) == live
  {
    forall i | 0 <= i < |live|
      ensures Reduced(Expanded(live, devs), devs)[i] == live[i]
    {
      assert KeyAt(Expanded(live, devs), i) == KeyAt(live, i);
      if KeyAt(live, i) in devs {
        ShrunkUndoesGrown(live[i], devs[KeyAt(live, i)]);
      }
    }
  }

  lemma ShrunkUndoesGrown(s: Slot, dev: Device)
    ensures Shrunk(Grown(s, dev), dev) == s
  {
    WrapsBack(s.limit, MemoryOf(dev));
    WrapsBack(s.smLimit, CoresOf(dev));
  }

  lemma WrapsBack(a: Uint64, b: Uint64)
    ensures ((a + b) % WORD - b) % WORD == a
  {
  }

  // What attaching and detaching do to the live prefix.

  /** After attaching, UUIDs are still distinct and every device has exactly one slot, with its limits. */
  lemma AttachedOnce(before: seq<Slot>, devs: DevMap, after: seq<Slot>, name: Name) returns (i: nat)
    requires Distinct(before) && Attached(before, devs, after) && name in devs
    ensures Distinct(after)
    ensures i < |after| && KeyAt(after, i) == name && HasLimits(after[i], devs[name])
    ensures after[i].limit == (devs[name].usedMem * 1048576) % 18446744073709551616
    ensures after[i].smLimit == devs[name].usedCores % 18446744073709551616
    ensures forall j :: 0 <= j < |after| && KeyAt(after, j) == name ==> j == i
  {
    hide KeyOf, Attached, Keys, HasLimits;
    AttachedDistinct(before, devs, after);
    if name in Keys(before) {
      i := KnownDeviceSlot(before, devs, after, name);
    } else {
      i := NewDeviceSlot(before, devs, after, name);
    }
    OnlyOneSlot(after, i);
    LimitsAre(after[i], devs[name]);
  }

  lemma LimitsAre(s: Slot, dev: Device)
    requires HasLimits(s, dev)
    ensures s.limit == (dev.usedMem * 1048576) % 18446744073709551616
    ensures s.smLimit == dev.usedCores % 18446744073709551616
  {
    QuantitiesAre(dev);
  }

  lemma OnlyOneSlot(live: seq<Slot>, i: nat)
    requires Distinct(live) && i < |live|
    ensures forall j :: 0 <= j < |live| && KeyAt(live, j) == KeyAt(live, i) ==> j == i
  {
    forall j | 0 <= j < |live| && j != i
      ensures KeyAt(live, j) != KeyAt(live, i)
    {
      assert j < i ==> KeyAt(live, j) != KeyAt(live, i);
      assert i < j ==> KeyAt(live, i) != KeyAt(live, j);
    }
  }

  lemma KnownDeviceSlot(before: seq<Slot>, devs: DevMap, after: seq<Slot>, name: Name) returns (i: nat)
    requires Distinct(before) && Attached(before, devs, after) && name in devs && name in Keys(before)
    ensures i < |after| && KeyAt(after, i) == name && HasLimits(after[i], devs[name])
  {
    hide KeyOf, MemoryOf, CoresOf, SlotsFor;
    var s :| s in before && KeyOf(s.uuid) == name;
    i :| 0 <= i < |before| && before[i] == s;
    assert KeyAt(before, i) == name;
    NotSeenBefore(before, i);
    assert after[i] == after[..|before|][i] == Updated(before, devs)[i];
  }

  lemma NewDeviceSlot(before: seq<Slot>, devs: DevMap, after: seq<Slot>, name: Name) returns (i: nat)
    requires Attached(before, devs, after) && name in devs && name !in Keys(before)
    ensures i < |after| && KeyAt(after, i) == name && HasLimits(after[i], devs[name])
  {
    hide KeyOf, MemoryOf, CoresOf, HasLimits;
    var added := after[|before|..];
    assert name in Keys(added);
    var s :| s in added && KeyOf(s.uuid) == name;
    var k :| 0 <= k < |added| && added[k] == s;
    assert KeyAt(added, k) == name;
    i := |before| + k;
  }

  lemma UpdatedKeys(live: seq<Slot>, devs: DevMap)
    ensures forall i :: 0 <= i < |live| ==> KeyAt(Updated(live, devs), i) == KeyAt(live, i)
  {
    hide KeyOf, MemoryOf, CoresOf, FirstAt;
  }

  lemma NoSurvivors(names: set<Name>)
    ensures Survivors([], names) == []
  {
  }

  lemma OneSurvivor(live: seq<Slot>, names: set<Name>, i: nat)
    requires i < |live|
    ensures |Survivors(live[i..], names)|
         == |Survivors(live[i + 1..], names)| + if KeyOf(live[i].uuid) in names then 0 else 1
  {
    assert live[i..][1..] == live[i + 1..];
  }

  lemma NoKeys()
    ensures Keys([]) == {}
  {
  }

  /** The slot at `i` is updated when its device is still on the list after the slots before it. */
  lemma UpdateOne(live: seq<Slot>, devs: DevMap, i: nat)
    requires i < |live|
    ensures var name := KeyAt(live, i);
            && Keys(live[..i + 1]) == Keys(live[..i]) + {name}
            && Updated(live, devs)[i]
               == if name in devs - Keys(live[..i])
                  then Slot(live[i].uuid, MemoryOf(devs[name]), CoresOf(devs[name])) else live[i]
  {
    hide KeyOf, MemoryOf, CoresOf;
    assert live[..i + 1] == live[..i] + [live[i]];
  }

  lemma KeysAreIn(live: seq<Slot>)
    ensures forall i :: 0 <= i < |live| ==> KeyAt(live, i) in Keys(live)
  {
    assert forall i | 0 <= i < |live| :: live[i] in live;
  }

  lemma AttachedDistinct(before: seq<Slot>, devs: DevMap, after: seq<Slot>)
    requires Distinct(before) && Attached(before, devs, after)
    ensures Distinct(after)
  {
    hide KeyOf, Updated, HasLimits, FirstAt, Keys;
    UpdatedKeys(before, devs);
    KeysAreIn(before);
    var n := |before|;
    assert after == after[..n] + after[n..];
    forall i | 0 <= i < n
      ensures KeyAt(after[..n], i) !in Keys(after[n..])
    {
      assert KeyAt(after[..n], i) == KeyAt(before, i);
    }
    DistinctJoin(after[..n], after[n..]);
  }

  lemma DistinctJoin(a: seq<Slot>, b: seq<Slot>)
    requires Distinct(a) && Distinct(b) && forall i :: 0 <= i < |a| ==> KeyAt(a, i) !in Keys(b)
    ensures Distinct(a + b)
  {
    KeysAreIn(b);
    hide KeyOf, Keys;
    var all := a + b;
    forall i, j | 0 <= i < j < |all|
      ensures KeyAt(all, i) != KeyAt(all, j)
    {
      assert i < |a| ==> KeyAt(all, i) == KeyAt(a, i);
      assert j < |a| ==> KeyAt(all, j) == KeyAt(a, j);
      assert i >= |a| ==> KeyAt(all, i) == KeyAt(b, i - |a|);
      assert j >= |a| ==> KeyAt(all, j) == KeyAt(b, j - |a|);
    }
  }

  lemma {:induction false} SurvivorsAppend(a: seq<Slot>, b: seq<Slot>, names: set<Name>)
    ensures Survivors(a + b, names) == Survivors(a, names) + Survivors(b, names)
    decreases |a|
  {
    if a == [] {
      assert a + b == b;
    } else {
      assert (a + b)[1..] == a[1..] + b;
      SurvivorsAppend(a[1..], b, names);
    }
  }

  lemma {:induction false} KeptSurvive(live: seq<Slot>, names: set<Name>)
    requires forall i :: 0 <= i < |live| ==> KeyAt(live, i) !in names
    ensures Survivors(live, names) == live
    decreases |live|
  {
    if live != [] {
      assert KeyAt(live, 0) !in names;
      forall i | 0 <= i < |live[1..]|
        ensures KeyAt(live[1..], i) !in names
      {
        assert KeyAt(live[1..], i) == KeyAt(live, i + 1);
      }
      KeptSurvive(live[1..], names);
    }
  }

  lemma {:induction false} SurvivorsAreKept(live: seq<Slot>, names: set<Name>)
    ensures forall s :: s in Survivors(live, names) ==> s in live && KeyOf(s.uuid) !in names
    decreases |live|
  {
    if live != [] {
      SurvivorsAreKept(live[1..], names);
    }
  }

  /** The removed devices sit behind all the others. */
  predicate RemovesSuffix(live: seq<Slot>, names: set<Name>) {
    forall i :: 0 <= i < |Survivors(live, names)| ==> KeyAt(live, i) !in names
  }

  /**
   Detaching leaves exactly the surviving slots in the live prefix when, and only when, the removed
   devices form a suffix of it: without compaction, a hole stays inside and a survivor falls out.
   */
  lemma DetachExactIff(live: seq<Slot>, names: set<Name>)
    requires KeyOf(ZERO_UUID) !in Keys(live)
    ensures Detached(live, names) == Survivors(live, names) <==> RemovesSuffix(live, names)
  {
    hide KeyOf;
    if RemovesSuffix(live, names) {
      SuffixIsExact(live, names);
    } else {
      var i :| 0 <= i < |Survivors(live, names)| && KeyAt(live, i) in names;
      HoleShows(live, names, i);
    }
  }

  lemma SuffixIsExact(live: seq<Slot>, names: set<Name>)
    requires RemovesSuffix(live, names)
    ensures Detached(live, names) == Survivors(live, names)
  {
    hide KeyOf;
    var n := |Survivors(live, names)|;
    forall i | 0 <= i < n
      ensures KeyAt(live[..n], i) !in names
    {
      assert KeyAt(live[..n], i) == KeyAt(live, i);
    }
    KeptSurvive(live[..n], names);
    assert live == live[..n] + live[n..];
    SurvivorsAppend(live[..n], live[n..], names);
    assert Survivors(live, names) == live[..n] + [];
    forall i | 0 <= i < n
      ensures Detached(live, names)[i] == live[..n][i]
    {
      assert KeyAt(live, i) !in names;
    }
  }

  lemma HoleShows(live: seq<Slot>, names: set<Name>, i: nat)
    requires KeyOf(ZERO_UUID) !in Keys(live)
    requires i < |Survivors(live, names)| && KeyAt(live, i) in names
    ensures Detached(live, names)[i] != Survivors(live, names)[i]
  {
    hide KeyOf;
    var s := Survivors(live, names)[i];
    SurvivorsAreKept(live, names);
    assert s in live;
    assert KeyOf(s.uuid) in Keys(live);
    assert Detached(live, names)[i].uuid == ZERO_UUID;
  }

  /** A history of attachments, each of devices that are not live yet. */
  ghost predicate FreshAttachments(states: seq<seq<Slot>>, maps: seq<DevMap>) {
    && |states| == |maps| + 1
    && forall i :: 0 <= i < |maps| ==>
         Attached(states[i], maps[i], states[i + 1]) && maps[i].Keys !! Keys(states[i])
  }

  function AllNames(maps: seq<DevMap>): set<Name> {
    if maps == [] then {} else AllNames(maps[..|maps| - 1]) + maps[|maps| - 1].Keys
  }

  lemma FreshUpdateKeeps(live: seq<Slot>, devs: DevMap)
    requires devs.Keys !! Keys(live)
    ensures Updated(live, devs) == live
  {
    hide FirstAt;
    KeysAreIn(live);
    hide Keys, KeyOf;
    forall i | 0 <= i < |live|
      ensures KeyAt(live, i) !in devs
    {
      assert KeyAt(live, i) in Keys(live);
    }
  }

  lemma FreshAttachmentAppends(before: seq<Slot>, devs: DevMap, after: seq<Slot>)
    requires Attached(before, devs, after) && devs.Keys !! Keys(before)
    ensures |before| <= |after| && after[..|before|] == before && Keys(after[|before|..]) == devs.Keys
  {
    FreshUpdateKeeps(before, devs);
    hide Keys, Updated;
    assert devs - Keys(before) == devs;
  }

  lemma {:induction false} AttachmentsAppend(states: seq<seq<Slot>>, maps: seq<DevMap>)
    requires FreshAttachments(states, maps)
    ensures var first, last := states[0], states[|maps|];
            && |first| <= |last| && last[..|first|] == first
            && Keys(last[|first|..]) <= AllNames(maps) && AllNames(maps) !! Keys(first)
    decreases |maps|
  {
    hide KeyOf, Attached;
    if maps != [] {
      var m := |maps| - 1;
      AttachmentsAppend(states[..m + 1], maps[..m]);
      FreshAttachmentAppends(states[m], maps[m], states[m + 1]);
      var first, mid, last := states[0], states[m], states[m + 1];
      assert last[..|first|] == last[..|mid|][..|first|];
      assert last[|first|..] == mid[|first|..] + last[|mid|..];
      assert mid == first + mid[|first|..];
      assert Keys(first) <= Keys(mid);
      assert Keys(last[|first|..]) == Keys(mid[|first|..]) + Keys(last[|mid|..]);
    }
  }

  /**
   Any number of attachments of fresh devices, in any map orders, followed by one detachment of them all,
   restores the live prefix: its length, UUIDs and limits.
   */
  lemma DetachUndoesAttachments(states: seq<seq<Slot>>, maps: seq<DevMap>)
    requires FreshAttachments(states, maps)
    ensures Detached(states[|maps|], AllNames(maps)) == states[0]
  {
    hide KeyOf, Attached;
    AttachmentsAppend(states, maps);
    var first, last, names := states[0], states[|maps|], AllNames(maps);
    var added := last[|first|..];
    forall i | 0 <= i < |first|
      ensures KeyAt(first, i) !in names
    {
      assert first[i] in first;
    }
    KeptSurvive(first, names);
    RemovedVanish(added, names);
    assert last == first + added;
    SurvivorsAppend(first, added, names);
    assert forall i | 0 <= i < |first| :: last[i] == first[i] && KeyAt(last, i) == KeyAt(first, i);
  }

  lemma {:induction false} RemovedVanish(added: seq<Slot>, names: set<Name>)
    requires Keys(added) <= names
    ensures Survivors(added, names) == []
    decreases |added|
  {
    if added != [] {
      assert added[0] in added;
      assert Keys(added[1..]) <= Keys(added);
      RemovedVanish(added[1..], names);
    }
  }

  lemma NotSeenBefore(live: seq<Slot>, i: nat)
    requires Distinct(live) && i < |live|
    ensures FirstAt(live, i)
  {
    forall j | 0 <= j < i
      ensures KeyOf(live[..i][j].uuid) != KeyAt(live, i)
    {
      assert KeyAt(live, j) != KeyAt(live, i);
    }
  }

  /** `a` and `b` divide `all` between them. */
  ghost predicate Shares(a: DevMap, b: DevMap, all: DevMap) {
    && (forall n :: n in all <==> n in a || n in b)
    && (forall n :: n in a ==> n !in b && a[n] == all[n])
    && (forall n :: n in b ==> b[n] == all[n])
  }

  lemma SharesEnds(all: DevMap)
    ensures Shares(map[], all, all) && SlotsFor([], map[])
  {
  }

  lemma SharesAll(a: DevMap, b: DevMap, all: DevMap)
    requires Shares(a, b, all) && b == map[]
    ensures a == all
  {
  }

  lemma StillToPlace(a: DevMap, b: DevMap, all: DevMap, name: Name)
    requires Shares(a, b, all) && name in b
    ensures name in all && |b| > 0
  {
    assert b.Keys != {};
  }

  lemma MoveOne(a: DevMap, b: DevMap, all: DevMap, name: Name)
    requires Shares(a, b, all) && name in b
    ensures Shares(a[name := b[name]], b - {name}, all)
  {
  }

  function SlotOf(name: Name, dev: Device): Slot
    requires |name| < 96
  {
    Slot(ConvertUUID(name), MemoryOf(dev), CoresOf(dev))
  }

  /** One device moves from those to be placed to those placed. */
  lemma StepNew(added: seq<Slot>, placed: DevMap, rest: DevMap, devs: DevMap, name: Name)
    requires Shares(placed, rest, devs) && name in rest && |name| < 96
    requires GpuNames(devs) ==> SlotsFor(added, placed)
    ensures Shares(placed[name := rest[name]], rest - {name}, devs)
    ensures |placed[name := rest[name]]| == |placed| + 1 && |rest - {name}| == |rest| - 1
    ensures GpuNames(devs) ==> SlotsFor(added + [SlotOf(name, rest[name])], placed[name := rest[name]])
  {
    MoveOne(placed, rest, devs, name);
    MoveOneCounts(placed, rest, name);
    if GpuNames(devs) {
      StoredNameIsFoundIff(name);
      OneMoreSlot(added, placed, SlotOf(name, rest[name]), name, rest[name]);
    }
  }

  lemma MoveOneCounts(a: DevMap, b: DevMap, name: Name)
    requires name in b && name !in a
    ensures |a[name := b[name]]| == |a| + 1 && |b - {name}| == |b| - 1
  {
    assert a[name := b[name]].Keys == a.Keys + {name};
    assert (b - {name}).Keys == b.Keys - {name};
  }

  lemma OneMoreSlot(added: seq<Slot>, devs: DevMap, s: Slot, name: Name, dev: Device)
    requires SlotsFor(added, devs) && name !in devs && KeyOf(s.uuid) == name && HasLimits(s, dev)
    ensures SlotsFor(added + [s], devs[name := dev])
  {
    hide HasLimits, KeyOf, Distinct;
    var more, all := added + [s], devs[name := dev];
    assert Keys(more) == Keys(added) + {name};
    assert all.Keys == devs.Keys + {name};
    assert |all.Keys| == |devs.Keys| + 1;
    MoreDistinct(added, s);
    MoreLimits(added, devs, s, name, dev);
  }

  lemma MoreLimits(added: seq<Slot>, devs: DevMap, s: Slot, name: Name, dev: Device)
    requires name !in devs && KeyOf(s.uuid) == name && HasLimits(s, dev)
    requires forall i :: 0 <= i < |added| ==> KeyAt(added, i) in devs && HasLimits(added[i], devs[KeyAt(added, i)])
    ensures var more, all := added + [s], devs[name := dev];
            forall i :: 0 <= i < |more| ==> KeyAt(more, i) in all && HasLimits(more[i], all[KeyAt(more, i)])
  {
    hide HasLimits, KeyOf;
    var more := added + [s];
    assert forall i | 0 <= i < |more| :: KeyAt(more, i) == if i < |added| then KeyAt(added, i) else name;
  }

  lemma MoreDistinct(live: seq<Slot>, s: Slot)
    requires Distinct(live) && KeyOf(s.uuid) !in Keys(live)
    ensures Distinct(live + [s])
  {
    hide KeyOf;
    var more := live + [s];
    forall i, j | 0 <= i < j < |more|
      ensures KeyAt(more, i) != KeyAt(more, j)
    {
      assert live[i] in live;
      assert j < |live| ==> KeyAt(live, i) != KeyAt(live, j);
    }
  }
}
