/** The device changes of a clone: the template's network cards are replaced by one, and its
    first disk is grown to the size of the node class. */
module Devices {
  import opened Prelude

  // ---------------------------------------------------------------------------
  // Sizes.
  // ---------------------------------------------------------------------------

  const TWO_63 := 0x8000_0000_0000_0000
  const TWO_64 := 0x1_0000_0000_0000_0000
  const TWO_43 := 0x800_0000_0000
  const KB_PER_GI := 0x10_0000

  predicate IsInt64(x: int) {
    -TWO_63 <= x < TWO_63
  }

  /** The 64-bit integer that arithmetic in 64 bits makes of `x`. */
  function Wrap(x: int): (r: int)
    ensures IsInt64(r)
  {
    (x + TWO_63) % TWO_64 - TWO_63
  }

  function GiToKb(size: int): (kb: int)
    ensures IsInt64(kb)
  {
    Wrap(Wrap(size * 1024) * 1024)
  }

  lemma WrapShifted(x: int, k: int)
    ensures Wrap(x + k * TWO_64) == Wrap(x)
  {
    var q := (x + TWO_63) / TWO_64;
    var m := (x + TWO_63) % TWO_64;
    assert x + k * TWO_64 + TWO_63 == (q + k) * TWO_64 + m;
  }

  /** Wrapping in between makes no difference. */
  lemma WrapsOnce(size: int)
    ensures GiToKb(size) == Wrap(size * KB_PER_GI)
  {
    var k := (size * 1024 + TWO_63) / TWO_64;
    assert Wrap(size * 1024) == size * 1024 - k * TWO_64;
    assert Wrap(size * 1024) * 1024 == size * KB_PER_GI + (-k * 1024) * TWO_64;
    WrapShifted(size * KB_PER_GI, -k * 1024);
  }

  lemma ExactIffSmall(size: int)
    ensures GiToKb(size) == size * KB_PER_GI <==> -TWO_43 <= size < TWO_43
  {
    WrapsOnce(size);
  }

  /** 2^44 gibibytes are as good as none. */
  lemma HugeSizeVanishes()
    ensures GiToKb(2 * TWO_43) == 0
  {
  }

  // ---------------------------------------------------------------------------
  // What the provider builds.
  // ---------------------------------------------------------------------------

  class VirtualDisk {
    const key: int
    var capacityInKB: int

    constructor (key: int, capacityInKB: int)
      ensures this.key == key && this.capacityInKB == capacityInKB
    {
      this.key := key;
      this.capacityInKB := capacityInKB;
    }
  }

  datatype Device = Disk(disk: VirtualDisk) | Nic(key: int) | Other(key: int)

  datatype Operation = Add | Remove | Edit

  datatype ConfigSpec = ConfigSpec(operation: Operation, device: Device)

  /** The results of the lookups in vSphere, the device list being that of the template. */
  datatype Lookups = Lookups(image: bool, network: bool, devices: Option<seq<Device>>, backing: bool)

  const NEW_NIC_KEY := -100

  function DisksOf(devices: seq<Device>): set<VirtualDisk> {
    set d | d in devices && d.Disk? :: d.disk
  }

  function Removals(devices: seq<Device>): seq<ConfigSpec> {
    if devices == [] then []
    else (if devices[0].Nic? then [ConfigSpec(Remove, devices[0])] else []) + Removals(devices[1..])
  }

  lemma {:induction false} RemovalsConcat(a: seq<Device>, b: seq<Device>)
    ensures Removals(a + b) == Removals(a) + Removals(b)
  {
    if a == [] {
      assert a + b == b;
    } else {
      RemovalsConcat(a[1..], b);
      assert (a + b)[1..] == a[1..] + b;
    }
  }

  method GetNetworkSpecs(devices: seq<Device>, backing: bool) returns (specs: Option<seq<ConfigSpec>>)
    ensures specs == if backing then Some(Removals(devices) + [ConfigSpec(Add, Nic(-100))]) else None
  {
    var deviceSpecs := [];
    for i := 0 to |devices|
      invariant deviceSpecs == Removals(devices[..i])
    {
      if devices[i].Nic? {
        deviceSpecs := deviceSpecs + [ConfigSpec(Remove, devices[i])];
      }
      assert devices[..i + 1] == devices[..i] + [devices[i]];
      RemovalsConcat(devices[..i], [devices[i]]);
    }
    assert devices[..|devices|] == devices;
    if !backing {
      return None;
    }
    return Some(deviceSpecs + [ConfigSpec(Add, Nic(NEW_NIC_KEY))]);
  }

  /** The capacity of the primary disk of the clone; none if the request is refused. */
  function Resized(capacity: int, requested: int): Option<int> {
    if requested <= 0 then Some(capacity)
    else if requested >= capacity then Some(requested)
    else None
  }

  method GetDiskConfigSpec(disk: VirtualDisk, requested: int) returns (spec: Option<ConfigSpec>)
    modifies disk
    ensures spec == if Resized(old(disk.capacityInKB), requested).None? then None
                    else Some(ConfigSpec(Edit, Disk(disk)))
    ensures disk.capacityInKB == if spec.None? then old(disk.capacityInKB)
                                 else Resized(old(disk.capacityInKB), requested).value
  {
    if requested == 0 {
    } else if requested > 0 && requested >= disk.capacityInKB {
      disk.capacityInKB := requested;
    } else if requested > 0 && requested < disk.capacityInKB {
      return None;
    }
    return Some(ConfigSpec(Edit, Disk(disk)));
  }

  // ---------------------------------------------------------------------------
  // What vSphere makes of it.
  // ---------------------------------------------------------------------------

  /** A device of a machine, by value. */
  datatype Hardware = HardDisk(key: int, capacityInKB: int) | Card(key: int) | Rest(key: int)

  datatype Change = Change(operation: Operation, device: Hardware)

  function ViewOf(d: Device): Hardware
    reads if d.Disk? then {d.disk} else {}
  {
    match d
    case Disk(disk) => HardDisk(disk.key, disk.capacityInKB)
    case Nic(key) => Card(key)
    case Other(key) => Rest(key)
  }

  function Views(devices: seq<Device>): (hw: seq<Hardware>)
    reads DisksOf(devices)
    ensures |hw| == |devices| && forall i :: 0 <= i < |hw| ==> hw[i] == ViewOf(devices[i])
  {
    if devices == [] then [] else [ViewOf(devices[0])] + Views(devices[1..])
  }

  ghost predicate DistinctKeys(hw: seq<Hardware>) {
    forall i, j :: 0 <= i < j < |hw| ==> hw[i].key != hw[j].key
  }

  function Drop(hw: seq<Hardware>, key: int): (r: seq<Hardware>)
  {
    if hw == [] then [] else (if hw[0].key == key then [] else [hw[0]]) + Drop(hw[1..], key)
  }

  function Replace(hw: seq<Hardware>, d: Hardware): (r: seq<Hardware>)
    ensures |r| == |hw| && forall i :: 0 <= i < |hw| ==> r[i] == if hw[i].key == d.key then d else hw[i]
  {
    if hw == [] then [] else [if hw[0].key == d.key then d else hw[0]] + Replace(hw[1..], d)
  }

  /** Devices are told apart by their keys; an added one gets the key `newKey`. */
  function Apply(hw: seq<Hardware>, c: Change, newKey: int): seq<Hardware> {
    match c.operation
    case Remove => Drop(hw, c.device.key)
    case Edit => Replace(hw, c.device)
    case Add => hw + [c.device.(key := newKey)]
  }

  function ApplyAll(hw: seq<Hardware>, changes: seq<Change>, newKey: int): seq<Hardware>
    decreases |changes|
  {
    if changes == [] then hw else ApplyAll(Apply(hw, changes[0], newKey), changes[1..], newKey)
  }

  function Changes(specs: seq<ConfigSpec>): (c: seq<Change>)
    reads DisksOf(DevicesOf(specs))
    ensures |c| == |specs| && forall i :: 0 <= i < |c| ==> c[i] == Change(specs[i].operation, ViewOf(specs[i].device))
  {
    if specs == [] then [] else [Change(specs[0].operation, ViewOf(specs[0].device))] + Changes(specs[1..])
  }

  function DevicesOf(specs: seq<ConfigSpec>): (ds: seq<Device>)
    ensures |ds| == |specs| && forall i :: 0 <= i < |ds| ==> ds[i] == specs[i].device
  {
    if specs == [] then [] else [specs[0].device] + DevicesOf(specs[1..])
  }

  function NoCards(hw: seq<Hardware>): (r: seq<Hardware>)
    ensures forall d :: d in r ==> d in hw && !d.Card?
  {
    if hw == [] then [] else (if hw[0].Card? then [] else [hw[0]]) + NoCards(hw[1..])
  }

  function FirstDisk(hw: seq<Hardware>): (p: nat)
    ensures p <= |hw| && (p < |hw| ==> hw[p].HardDisk?) && forall i :: 0 <= i < p ==> !hw[i].HardDisk?
  {
    if hw == [] || hw[0].HardDisk? then 0 else 1 + FirstDisk(hw[1..])
  }

  /** The hardware that the clone should have. */
  function Intended(hw: seq<Hardware>, capacity: int, newKey: int): seq<Hardware>
    requires FirstDisk(hw) < |hw|
  {
    NoCards(hw[FirstDisk(hw) := HardDisk(hw[FirstDisk(hw)].key, capacity)]) + [Card(newKey)]
  }

  // ---------------------------------------------------------------------------
  // The changes have the intended effect.
  // ---------------------------------------------------------------------------

  function CardRemovals(hw: seq<Hardware>): seq<Change> {
    if hw == [] then [] else (if hw[0].Card? then [Change(Remove, hw[0])] else []) + CardRemovals(hw[1..])
  }

  function CardKeys(hw: seq<Hardware>): set<int> {
    set d | d in hw && d.Card? :: d.key
  }

  /** The devices with other keys. */
  function Keep(hw: seq<Hardware>, gone: set<int>): seq<Hardware> {
    if hw == [] then [] else (if hw[0].key in gone then [] else [hw[0]]) + Keep(hw[1..], gone)
  }

  lemma {:induction false} DropKept(hw: seq<Hardware>, gone: set<int>, key: int)
    ensures Drop(Keep(hw, gone), key) == Keep(hw, gone + {key})
  {
    if hw != [] {
      DropKept(hw[1..], gone, key);
      if hw[0].key in gone {
        assert Keep(hw, gone) == Keep(hw[1..], gone);
      } else {
        assert Keep(hw, gone)[1..] == Keep(hw[1..], gone);
      }
    }
  }

  lemma ApplyFirst(hw: seq<Hardware>, c: Change, rest: seq<Change>, newKey: int)
    ensures ApplyAll(hw, [c] + rest, newKey) == ApplyAll(Apply(hw, c, newKey), rest, newKey)
  {
  }

  lemma {:induction false} RemovalsKeep(hw: seq<Hardware>, gone: set<int>, cards: seq<Hardware>, newKey: int)
    ensures ApplyAll(Keep(hw, gone), CardRemovals(cards), newKey) == Keep(hw, gone + CardKeys(cards))
    decreases |cards|
  {
    if cards == [] {
      assert gone + CardKeys(cards) == gone;
    } else {
      var c, rest := cards[0], CardRemovals(cards[1..]);
      assert [] + rest == rest;
      if c.Card? {
        assert gone + CardKeys(cards) == gone + {c.key} + CardKeys(cards[1..]);
        ApplyFirst(Keep(hw, gone), Change(Remove, c), rest, newKey);
        DropKept(hw, gone, c.key);
        RemovalsKeep(hw, gone + {c.key}, cards[1..], newKey);
      } else {
        assert CardKeys(cards) == CardKeys(cards[1..]);
        RemovalsKeep(hw, gone, cards[1..], newKey);
      }
    }
  }

  lemma {:induction false} KeepIsNoCards(hw: seq<Hardware>, gone: set<int>)
    requires forall i :: 0 <= i < |hw| ==> (hw[i].key in gone <==> hw[i].Card?)
    ensures Keep(hw, gone) == NoCards(hw)
  {
    if hw != [] {
      KeepIsNoCards(hw[1..], gone);
    }
  }

  lemma {:induction false} KeepAll(hw: seq<Hardware>)
    ensures Keep(hw, {}) == hw
  {
    if hw != [] {
      KeepAll(hw[1..]);
    }
  }

  lemma CardsRemoved(hw: seq<Hardware>, newKey: int)
    requires DistinctKeys(hw)
    ensures ApplyAll(hw, CardRemovals(hw), newKey) == NoCards(hw)
  {
    KeepAll(hw);
    CardKeysAreOfCards(hw);
    hide DistinctKeys, CardKeys;
    RemovalsKeep(hw, {}, hw, newKey);
    assert {} + CardKeys(hw) == CardKeys(hw);
    KeepIsNoCards(hw, CardKeys(hw));
  }

  lemma CardKeysAreOfCards(hw: seq<Hardware>)
    requires DistinctKeys(hw)
    ensures forall i :: 0 <= i < |hw| ==> (hw[i].key in CardKeys(hw) <==> hw[i].Card?)
  {
  }

  lemma NoChanges(hw: seq<Hardware>, newKey: int)
    ensures ApplyAll(hw, [], newKey) == hw
  {
  }

  lemma {:induction false} ApplyConcat(hw: seq<Hardware>, a: seq<Change>, b: seq<Change>, newKey: int)
    ensures ApplyAll(hw, a + b, newKey) == ApplyAll(ApplyAll(hw, a, newKey), b, newKey)
    decreases |a|
  {
    if a == [] {
      assert a + b == b;
    } else {
      assert (a + b)[1..] == a[1..] + b;
      ApplyConcat(Apply(hw, a[0], newKey), a[1..], b, newKey);
    }
  }

  lemma {:induction false} ReplaceKeepsCards(hw: seq<Hardware>, d: Hardware)
    requires !d.Card? && forall i :: 0 <= i < |hw| && hw[i].key == d.key ==> !hw[i].Card?
    ensures Replace(NoCards(hw), d) == NoCards(Replace(hw, d))
  {
    if hw != [] {
      ReplaceKeepsCards(hw[1..], d);
    }
  }

  lemma {:induction false} ReplaceLast(hw: seq<Hardware>, last: Hardware, d: Hardware)
    requires last.key != d.key
    ensures Replace(hw + [last], d) == Replace(hw, d) + [last]
  {
  }

  /** The two changes after the removals: the new card and the primary disk. */
  function AddAndEdit(diskKey: int, capacity: int): seq<Change> {
    [Change(Add, Card(NEW_NIC_KEY))] + [Change(Edit, HardDisk(diskKey, capacity))]
  }

  lemma CardKeysElsewhere(hw: seq<Hardware>, p: nat)
    requires DistinctKeys(hw) && p < |hw| && hw[p].HardDisk?
    ensures forall i :: 0 <= i < |hw| && hw[i].key == hw[p].key ==> i == p
  {
  }

  /** Removals, then the new card, then the edited disk: the result is the intended hardware. */
  lemma ChangesDoIt(hw: seq<Hardware>, capacity: int, newKey: int)
    requires DistinctKeys(hw) && FirstDisk(hw) < |hw|
    requires forall i :: 0 <= i < |hw| ==> hw[i].key != newKey
    ensures ApplyAll(hw, CardRemovals(hw) + AddAndEdit(hw[FirstDisk(hw)].key, capacity), newKey)
            == Intended(hw, capacity, newKey)
  {
    var p := FirstDisk(hw);
    var d := HardDisk(hw[p].key, capacity);
    var added, edited := Change(Add, Card(NEW_NIC_KEY)), Change(Edit, d);
    CardKeysElsewhere(hw, p);
    assert Replace(hw, d) == hw[p := d];
    hide ApplyAll, DistinctKeys, Replace, FirstDisk, NoCards, CardRemovals;
    CardsRemoved(hw, newKey);
    ApplyConcat(hw, CardRemovals(hw), [added] + [edited], newKey);
    ApplyFirst(NoCards(hw), added, [edited], newKey);
    assert [edited] + [] == [edited];
    ApplyFirst(NoCards(hw) + [Card(newKey)], edited, [], newKey);
    NoChanges(Replace(NoCards(hw) + [Card(newKey)], d), newKey);
    ReplaceLast(NoCards(hw), Card(newKey), d);
    ReplaceKeepsCards(hw, d);
  }

  // ---------------------------------------------------------------------------
  // The device changes as a whole.
  // ---------------------------------------------------------------------------

  function PrimaryDisk(devices: seq<Device>): (r: Option<VirtualDisk>)
    ensures r.Some? ==> r.value in DisksOf(devices)
  {
    if devices == [] then None
    else if devices[0].Disk? then Some(devices[0].disk)
    else PrimaryDisk(devices[1..])
  }

  /** The capacity that the primary disk of the clone gets, if it can be cloned at all. */
  function CloneCapacity(hw: seq<Hardware>, size: int): Option<int>
    requires IsInt64(size)
  {
    var p := FirstDisk(hw);
    if p == |hw| then None else Resized(hw[p].capacityInKB, GiToKb(size))
  }

  lemma FirstDiskStep(d: Hardware, rest: seq<Hardware>)
    ensures FirstDisk([d] + rest) == if d.HardDisk? then 0 else 1 + FirstDisk(rest)
  {
  }

  lemma {:induction false} PrimaryIsFirst(devices: seq<Device>)
    ensures var hw, primary := Views(devices), PrimaryDisk(devices);
            && (primary.None? <==> FirstDisk(hw) == |hw|)
            && (primary.Some? ==> FirstDisk(hw) < |hw| && hw[FirstDisk(hw)] == ViewOf(Disk(primary.value)))
  {
    if devices != [] {
      PrimaryIsFirst(devices[1..]);
      var rest := Views(devices[1..]);
      assert Views(devices) == [ViewOf(devices[0])] + rest;
      hide Views;
      FirstDiskStep(ViewOf(devices[0]), rest);
    }
  }

  function NicRemovals(devices: seq<Device>): seq<Change> {
    if devices == [] then []
    else (if devices[0].Nic? then [Change(Remove, Card(devices[0].key))] else []) + NicRemovals(devices[1..])
  }

  lemma {:induction false} RemovalsAreChanges(devices: seq<Device>)
    ensures Changes(Removals(devices)) == NicRemovals(devices)
  {
    if devices != [] {
      RemovalsAreChanges(devices[1..]);
      var rest := Removals(devices[1..]);
      if devices[0].Nic? {
        assert Removals(devices)[1..] == rest;
      } else {
        assert Removals(devices) == rest;
      }
    }
  }

  lemma {:induction false} CardsAreNics(devices: seq<Device>)
    ensures CardRemovals(Views(devices)) == NicRemovals(devices)
  {
    if devices != [] {
      CardsAreNics(devices[1..]);
      assert Views(devices)[1..] == Views(devices[1..]);
    }
  }

  lemma SpecsAsChanges(devices: seq<Device>, disk: VirtualDisk)
    ensures Changes(Removals(devices) + [ConfigSpec(Add, Nic(NEW_NIC_KEY))] + [ConfigSpec(Edit, Disk(disk))])
            == NicRemovals(devices) + AddAndEdit(disk.key, disk.capacityInKB)
  {
    RemovalsAreChanges(devices);
  }

  lemma HaveTheEffect(hw: seq<Hardware>, capacity: int)
    requires DistinctKeys(hw) && FirstDisk(hw) < |hw|
    ensures forall newKey :: (forall i :: 0 <= i < |hw| ==> hw[i].key != newKey) ==>
              ApplyAll(hw, CardRemovals(hw) + AddAndEdit(hw[FirstDisk(hw)].key, capacity), newKey)
              == Intended(hw, capacity, newKey)
  {
    forall newKey | forall i :: 0 <= i < |hw| ==> hw[i].key != newKey
      ensures ApplyAll(hw, CardRemovals(hw) + AddAndEdit(hw[FirstDisk(hw)].key, capacity), newKey)
              == Intended(hw, capacity, newKey)
    {
      ChangesDoIt(hw, capacity, newKey);
    }
  }

  /** The changes are built exactly when everything could be looked up and the first disk may be
      resized; on the template's hardware they have the intended effect. */
  method GetDeviceSpec(found: Lookups, diskSize: int) returns (specs: Option<seq<ConfigSpec>>)
    requires IsInt64(diskSize)
    requires found.devices.Some? ==> DistinctKeys(Views(found.devices.value))
    modifies if found.devices.Some? then DisksOf(found.devices.value) else {}
    ensures specs.Some? <==>
              && found.image && found.network && found.devices.Some? && found.backing
              && CloneCapacity(old(Views(found.devices.value)), diskSize).Some?
    ensures specs.Some? ==>
              var hw := old(Views(found.devices.value));
              forall newKey :: (forall i :: 0 <= i < |hw| ==> hw[i].key != newKey) ==>
                ApplyAll(hw, Changes(specs.value), newKey) == Intended(hw, CloneCapacity(hw, diskSize).value, newKey)
    ensures found.devices.Some? ==>
              forall d :: d in DisksOf(found.devices.value) && Some(d) != PrimaryDisk(found.devices.value) ==>
                d.capacityInKB == old(d.capacityInKB)
  {
    hide ApplyAll, Intended, CardRemovals, NicRemovals, Removals, FirstDisk;
    if !found.image || !found.network || found.devices.None? {
      return None;
    }
    var devices := found.devices.value;
    ghost var hw := Views(devices);
    PrimaryIsFirst(devices);
    CardsAreNics(devices);
    var primary := PrimaryDisk(devices);
    if primary.None? {
      return None;
    }
    var diskSpec := GetDiskConfigSpec(primary.value, GiToKb(diskSize));
    if diskSpec.None? {
      return None;
    }
    var netSpecs := GetNetworkSpecs(devices, found.backing);
    if netSpecs.None? {
      return None;
    }
    specs := Some(netSpecs.value + [diskSpec.value]);
    SpecsAsChanges(devices, primary.value);
    HaveTheEffect(hw, CloneCapacity(hw, diskSize).value);
  }

  lemma {:induction false} InNoCards(hw: seq<Hardware>, d: Hardware)
    ensures d in NoCards(hw) <==> d in hw && !d.Card?
  {
    if hw != [] {
      InNoCards(hw[1..], d);
      assert d in hw <==> d == hw[0] || d in hw[1..];
    }
  }

  lemma {:induction false} NoCardsDistinct(hw: seq<Hardware>)
    requires DistinctKeys(hw)
    ensures DistinctKeys(NoCards(hw))
  {
    if hw != [] {
      NoCardsDistinct(hw[1..]);
      if !hw[0].Card? {
        var rest := NoCards(hw[1..]);
        forall j | 0 <= j < |rest| ensures rest[j].key != hw[0].key {
          assert rest[j] in hw[1..];
        }
      }
    }
  }

  lemma InUpdated(hw: seq<Hardware>, p: nat, e: Hardware, d: Hardware)
    requires DistinctKeys(hw) && p < |hw|
    ensures d in hw[p := e] <==> d == e || (d in hw && d != hw[p])
  {
    assert hw[p := e][p] == e;
    if d in hw && d != hw[p] {
      var i :| 0 <= i < |hw| && hw[i] == d;
      assert hw[p := e][i] == d;
    }
    if d in hw[p := e] && d != e {
      var i :| 0 <= i < |hw| && hw[p := e][i] == d;
      assert hw[i].key != hw[p].key;
    }
  }

  lemma AppendDistinct(hw: seq<Hardware>, d: Hardware)
    requires DistinctKeys(hw) && forall i :: 0 <= i < |hw| ==> hw[i].key != d.key
    ensures DistinctKeys(hw + [d])
  {
  }

  /** What the intended hardware is: one card, the new one; the first disk, resized; and every
      other device of the template that is not a card, as it was. */
  lemma {:induction false} IntendedIs(hw: seq<Hardware>, capacity: int, newKey: int, d: Hardware)
    requires DistinctKeys(hw) && FirstDisk(hw) < |hw|
    requires forall i :: 0 <= i < |hw| ==> hw[i].key != newKey
    ensures var p := FirstDisk(hw);
            d in Intended(hw, capacity, newKey) <==>
              || d == Card(newKey)
              || d == HardDisk(hw[p].key, capacity)
              || (d in hw && !d.Card? && d != hw[p])
    ensures DistinctKeys(Intended(hw, capacity, newKey))
  {
    var p := FirstDisk(hw);
    var e := HardDisk(hw[p].key, capacity);
    var updated := hw[p := e];
    InUpdated(hw, p, e, d);
    InNoCards(updated, d);
    assert DistinctKeys(updated);
    NoCardsDistinct(updated);
    hide FirstDisk, NoCards;
    var kept := NoCards(updated);
    forall i | 0 <= i < |kept| ensures kept[i].key != newKey {
      assert kept[i] in updated;
    }
    AppendDistinct(kept, Card(newKey));
    assert d in kept + [Card(newKey)] <==> d in kept || d == Card(newKey);
  }

  // ---------------------------------------------------------------------------
  // When a request is met.
  // ---------------------------------------------------------------------------

  /** What a request of `size` gibibytes means: nothing asked for keeps the template's capacity,
      more is granted, less is refused. */
  function Requested(capacity: int, size: int): Option<int> {
    if size == 0 then Some(capacity)
    else if size * KB_PER_GI >= capacity then Some(size * KB_PER_GI)
    else None
  }

  /** The request is met exactly for sizes from 0 to 2^43 - 1, apart from negative sizes that
      wrap around to something positive below the template and are refused for that reason. */
  lemma MetIff(capacity: int, size: int)
    requires IsInt64(size) && 0 <= capacity && IsInt64(capacity)
    ensures Resized(capacity, GiToKb(size)) == Requested(capacity, size) <==>
              || 0 <= size < TWO_43
              || (size < -TWO_43 && 0 < GiToKb(size) < capacity)
  {
    WrapsOnce(size);
    ExactIffSmall(size);
  }
}
