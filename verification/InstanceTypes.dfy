/** Instance types, their names, and how the type of a running instance is found again. */
module InstanceTypes {
  import opened Prelude
  import opened ClassLookup
  import opened Tags
  import Devices

  /** An entry of the node class. */
  datatype TypeSpec = TypeSpec(cpu: string, memory: string, maxPods: string, os: string, zone: string)

  /** What a node class says about instance types; the disk size is a 64-bit number of gibibytes. */
  datatype ClassSpec = ClassSpec(types: seq<TypeSpec>, diskSize: int)

  /** Quantities are given by their texts, except for the storage in bytes. */
  datatype InstanceType = InstanceType(
    name: string, cpu: string, memory: string, pods: string, storage: int, os: string, arch: string, zone: string)

  /** How letters are lowered; anything will do for what follows. */
  type Lowering = string -> string

  const CLUSTER := "karpenter.sh/clustername"
  const NODE_CLASS := "karpenter.vsphere.com/vspherenodeclass"
  const NODE_POOL := "karpenter.sh/nodepool"
  const SIZE := "karpenter.vsphere.com/instance-size"
  const CPU := "karpenter.vsphere.com/instance-cpu"
  const MEMORY := "karpenter.vsphere.com/instance-memory"

  // ---------------------------------------------------------------------------
  // Names of types.
  // ---------------------------------------------------------------------------

  /** Without a `Gi` at the end. */
  function TrimGi(memory: string): string {
    if |memory| >= 2 && memory[|memory| - 2..] == "Gi" then memory[..|memory| - 2] else memory
  }

  function TypeName(cpu: string, memory: string, os: string): string {
    "vsphere-vm.cpu-" + (cpu + (".mem-" + (TrimGi(memory) + ("gb.os-" + os))))
  }

  predicate Digit(c: char) {
    '0' <= c <= '9'
  }

  predicate Digits(s: string) {
    forall i :: 0 <= i < |s| ==> Digit(s[i])
  }

  /** The entries whose name says what they are: a number of processors, and memory in Gi. */
  predicate Plain(t: TypeSpec) {
    Digits(t.cpu) && |t.memory| >= 2 && Digits(t.memory[..|t.memory| - 2]) && t.memory[|t.memory| - 2..] == "Gi"
  }

  lemma PlainIff(t: TypeSpec)
    ensures forall c :: Digit(c) <==> c in "0123456789"
    ensures Plain(t) <==>
            Digits(t.cpu) && exists size :: Digits(size) && t.memory == size + "Gi"
  {
    if size :| Digits(size) && t.memory == size + "Gi" {
      assert t.memory[..|t.memory| - 2] == size;
    }
    if Plain(t) {
      assert t.memory == t.memory[..|t.memory| - 2] + "Gi";
    }
    forall c ensures Digit(c) <==> c in "0123456789" {
      DigitIs(c);
    }
  }

  lemma DigitIs(c: char)
    ensures Digit(c) <==> c in "0123456789"
  {
    var figures := "0123456789";
    if Digit(c) {
      assert figures[c as int - '0' as int] == c;
    }
  }

  /** Digits end where something else begins. */
  lemma DigitsEnd(a: string, x: string, b: string, y: string)
    requires Digits(a) && Digits(b) && x != "" && y != "" && !Digit(x[0]) && !Digit(y[0])
    requires a + x == b + y
    ensures a == b && x == y
  {
    var s := a + x;
    assert s[|a|] == x[0] && s[|b|] == y[0];
    assert forall i :: 0 <= i < |a| ==> s[i] == a[i];
    assert forall i :: 0 <= i < |b| ==> s[i] == b[i];
    assert |a| == |b|;
    assert a == s[..|a|] && b == s[..|b|] && x == s[|a|..] && y == s[|b|..];
  }

  lemma DropPrefix(p: string, x: string, y: string)
    requires p + x == p + y
    ensures x == y
  {
    assert x == (p + x)[|p|..];
  }

  /** Names of types with a numeric processor count and numeric trimmed memory are equal exactly
      when all that goes into them is. */
  lemma SameNameIff(c: string, m: string, o: string, c': string, m': string, o': string)
    requires Digits(c) && Digits(c') && Digits(TrimGi(m)) && Digits(TrimGi(m'))
    ensures TypeName(c, m, o) == TypeName(c', m', o') <==> c == c' && TrimGi(m) == TrimGi(m') && o == o'
  {
    if TypeName(c, m, o) == TypeName(c', m', o') {
      hide TrimGi;
      var rest, rest' := ".mem-" + (TrimGi(m) + ("gb.os-" + o)), ".mem-" + (TrimGi(m') + ("gb.os-" + o'));
      DropPrefix("vsphere-vm.cpu-", c + rest, c' + rest');
      DigitsEnd(c, rest, c', rest');
      DropPrefix(".mem-", TrimGi(m) + ("gb.os-" + o), TrimGi(m') + ("gb.os-" + o'));
      DigitsEnd(TrimGi(m), "gb.os-" + o, TrimGi(m'), "gb.os-" + o');
      DropPrefix("gb.os-", o, o');
    }
  }

  lemma TrimGiIs(memory: string)
    ensures TrimGi(memory + "Gi") == memory
    ensures !(exists m :: memory == m + "Gi") ==> TrimGi(memory) == memory
  {
    assert (memory + "Gi")[|memory|..] == "Gi";
    if |memory| >= 2 && memory[|memory| - 2..] == "Gi" {
      assert memory == memory[..|memory| - 2] + "Gi";
    }
  }

  /** Four bytes and four gibibytes of memory make the same name. */
  lemma UnitIsLost(cpu: string, os: string)
    ensures TypeName(cpu, "4", os) == TypeName(cpu, "4Gi", os)
  {
  }

  // ---------------------------------------------------------------------------
  // The types of a node class.
  // ---------------------------------------------------------------------------

  const AMD64 := "amd64"

  function GiToByte(size: int): int {
    Devices.Wrap(Devices.Wrap(Devices.Wrap(size * 1024) * 1024) * 1024)
  }

  /** The sizes in gibibytes whose bytes fit into 64 bits. */
  predicate IsDiskSize(size: int) {
    -0x2_0000_0000 <= size < 0x2_0000_0000
  }

  /** The bytes of a disk are right exactly for these sizes. */
  lemma BytesExactIff(size: int)
    ensures GiToByte(size) == size * 0x4000_0000 <==> IsDiskSize(size)
  {
    Devices.WrapsOnce(size);
    var kb := Devices.GiToKb(size);
    var k := (size * 0x10_0000 + Devices.TWO_63) / Devices.TWO_64;
    assert kb == size * 0x10_0000 - k * Devices.TWO_64;
    assert kb * 1024 == size * 0x4000_0000 + (-k * 1024) * Devices.TWO_64;
    Devices.WrapShifted(size * 0x4000_0000, -k * 1024);
  }

  function TypeOf(t: TypeSpec, diskSize: int, lower: Lowering): InstanceType {
    InstanceType(TypeName(t.cpu, t.memory, lower(t.os)), t.cpu, t.memory, t.maxPods, GiToByte(diskSize), lower(t.os),
                 AMD64, t.zone)
  }

  function TypesOf(c: ClassSpec, lower: Lowering): (types: seq<InstanceType>)
    ensures |types| == |c.types| && forall i :: 0 <= i < |types| ==> types[i] == TypeOf(c.types[i], c.diskSize, lower)
  {
    seq(|c.types|, i requires 0 <= i < |c.types| => TypeOf(c.types[i], c.diskSize, lower))
  }

  /** One type per entry, in the order of the entries: the quantities of the entry, a name made of
      three of them, and storage of the disk's size. */
  method InstanceTypesFromNodeClass(c: ClassSpec, lower: Lowering) returns (types: seq<InstanceType>)
    ensures types == TypesOf(c, lower) && |types| == |c.types|
    ensures forall i :: 0 <= i < |types| ==>
              var e, t := c.types[i], types[i];
              && t.name == "vsphere-vm.cpu-" + (e.cpu + (".mem-" + (TrimGi(e.memory) + ("gb.os-" + lower(e.os)))))
              && t.cpu == e.cpu && t.memory == e.memory && t.pods == e.maxPods && t.zone == e.zone
              && t.os == lower(e.os) && t.arch == "amd64"
              && (IsDiskSize(c.diskSize) ==> t.storage == c.diskSize * 0x4000_0000)
  {
    BytesExactIff(c.diskSize);
    hide GiToByte;
    types := [];
    for n := 0 to |c.types|
      invariant |types| == n && forall i :: 0 <= i < n ==> types[i] == TypesOf(c, lower)[i]
    {
      var t := c.types[n];
      var os := lower(t.os);
      var name := TypeName(t.cpu, t.memory, os);
      types := types + [InstanceType(name, t.cpu, t.memory, t.maxPods, GiToByte(c.diskSize), os, AMD64, t.zone)];
    }
  }

  /** The first type of that name. */
  function Find(types: seq<InstanceType>, name: string): (r: Option<InstanceType>)
    ensures r.None? <==> forall i :: 0 <= i < |types| ==> types[i].name != name
    ensures r.Some? ==> r.value.name == name && r.value in types
  {
    if types == [] then None else if types[0].name == name then Some(types[0]) else Find(types[1..], name)
  }

  lemma PlainIsTrimmed(t: TypeSpec)
    requires Plain(t)
    ensures Digits(TrimGi(t.memory)) && t.memory == TrimGi(t.memory) + "Gi"
  {
  }

  /** The two entries describe the same processors, memory and operating system. */
  predicate SameEntry(s: TypeSpec, t: TypeSpec, lower: Lowering) {
    s.cpu == t.cpu && s.memory == t.memory && lower(s.os) == lower(t.os)
  }

  /** Among plain entries the name decides what the machine is like. */
  lemma NameDecides(s: TypeSpec, t: TypeSpec, lower: Lowering, m: int, n: int)
    requires Plain(s) && Plain(t)
    ensures TypeOf(s, m, lower).name == TypeOf(t, n, lower).name <==> SameEntry(s, t, lower)
  {
    PlainIsTrimmed(s);
    PlainIsTrimmed(t);
    SameNameIff(s.cpu, s.memory, lower(s.os), t.cpu, t.memory, lower(t.os));
  }

  // ---------------------------------------------------------------------------
  // The tags of an instance.
  // ---------------------------------------------------------------------------

  /** What a launch knows besides the type. */
  datatype Launch = Launch(cluster: string, nodeClass: string, nodePool: string, cpu: string, memory: string,
      classTags: map<string, string>)

  /** The provider's own tags, over which those of the node class are copied. */
  function LaunchTags(l: Launch, t: InstanceType): map<string, string> {
    map[CLUSTER := l.cluster, NODE_CLASS := l.nodeClass, NODE_POOL := l.nodePool, SIZE := t.name, CPU := l.cpu,
        MEMORY := l.memory]
    + l.classTags
  }

  /** The tag that is read, empty if it is missing. */
  function TagOf(tags: map<string, string>, key: string): string {
    if key in tags then tags[key] else ""
  }

  /** `NameOnly` is a type without processors and memory; a pool without a class crashes the caller. */
  datatype Resolution = Resolved(found: InstanceType) | NameOnly(name: string) | Failed | Crashed

  /** The type for a pool name and a type name: looked up in the class that the pool refers to now. */
  function ResolveBy(api: Api<ClassSpec>, lower: Lowering, pool: string, size: string): Resolution {
    if pool == "" then Failed
    else match api.Pool(pool)
      case NotFound => NameOnly(size)
      case Unreadable => Failed
      case Found(None) => Crashed
      case Found(Some(name)) =>
        match api.LiveClass(name)
        case Found(c) =>
          (match Find(TypesOf(c, lower), size)
           case None => Failed
           case Some(t) => Resolved(t))
        case _ => Failed
  }

  /** `resolveInstanceTypeFromInstance`, on the tags of the instance. */
  function Resolve(api: Api<ClassSpec>, lower: Lowering, tags: map<string, string>): Resolution {
    ResolveBy(api, lower, TagOf(tags, NODE_POOL), TagOf(tags, SIZE))
  }

  lemma OwnTags(l: Launch, t: InstanceType)
    ensures SIZE in LaunchTags(l, t) && NODE_POOL in LaunchTags(l, t)
    ensures LaunchTags(l, t)[SIZE] == SizeTag(l, t)
    ensures LaunchTags(l, t)[NODE_POOL] == PoolTag(l)
    ensures SIZE != ZONE && SIZE != K8S_ZONE && NODE_POOL != ZONE && NODE_POOL != K8S_ZONE
  {
    assert |SIZE| != |NODE_POOL|;
  }

  /** The type name and the pool that end up in the tags: those of the class come last. */
  function SizeTag(l: Launch, t: InstanceType): string {
    if SIZE in l.classTags then l.classTags[SIZE] else t.name
  }

  function PoolTag(l: Launch): string {
    if NODE_POOL in l.classTags then l.classTags[NODE_POOL] else l.nodePool
  }

  /** `ids` are the tags that a launch wrote, and `listing` is what is listed of them later. */
  ghost predicate ReadLater(l: Launch, t: InstanceType, r: Registry, order: seq<string>, ids: seq<TagId>,
      listing: seq<TagId>)
  {
    && Lists(order, LaunchTags(l, t).Keys) && r.Written(LaunchTags(l, t), order, ids)
    && Lists(listing, Elements(ids)) && r.Readable(listing)
  }

  /** In every order of writing and listing, an instance is resolved by the pool and the type name
      that its launch wrote last. */
  lemma ResolvedByTags(api: Api<ClassSpec>, lower: Lowering, l: Launch, t: InstanceType,
                       r: Registry, order: seq<string>, ids: seq<TagId>, listing: seq<TagId>)
    requires ReadLater(l, t, r, order, ids, listing)
    ensures Resolve(api, lower, Extracted(r, listing)) == ResolveBy(api, lower, PoolTag(l), SizeTag(l, t))
  {
    OwnTags(l, t);
    OrdinaryKeysReadBack(r, LaunchTags(l, t), order, ids, listing, SIZE);
    OrdinaryKeysReadBack(r, LaunchTags(l, t), order, ids, listing, NODE_POOL);
  }

  /** The tags under which a launch files the instance. */
  function OwnTagsOf(l: Launch, t: InstanceType): map<string, string> {
    map["karpenter.sh/clustername" := l.cluster,
        "karpenter.vsphere.com/vspherenodeclass" := l.nodeClass,
        "karpenter.sh/nodepool" := l.nodePool,
        "karpenter.vsphere.com/instance-size" := t.name,
        "karpenter.vsphere.com/instance-cpu" := l.cpu,
        "karpenter.vsphere.com/instance-memory" := l.memory]
  }

  /** All of them are read back, and so are the tags of the class, which take precedence. */
  lemma TagsReadBack(l: Launch, t: InstanceType, r: Registry, order: seq<string>, ids: seq<TagId>,
                     listing: seq<TagId>, key: string)
    requires ReadLater(l, t, r, order, ids, listing)
    requires key != "topology.kubernetes.io/zone" && key != "k8s-zone"
    ensures var read := Extracted(r, listing);
            && (key in l.classTags ==> key in read && read[key] == l.classTags[key])
            && (key in OwnTagsOf(l, t) && key !in l.classTags ==> key in read && read[key] == OwnTagsOf(l, t)[key])
  {
    hide Extracted;
    if key in LaunchTags(l, t) {
      OrdinaryKeysReadBack(r, LaunchTags(l, t), order, ids, listing, key);
    }
  }

  function EntryName(e: TypeSpec, lower: Lowering): string {
    TypeName(e.cpu, e.memory, lower(e.os))
  }

  /** The first entry of the class with the type name of `e` is an entry like `e`. */
  ghost predicate Offers(c: ClassSpec, lower: Lowering, e: TypeSpec) {
    exists i :: 0 <= i < |c.types| && SameEntry(c.types[i], e, lower)
                && forall j :: 0 <= j < i ==> EntryName(c.types[j], lower) != EntryName(e, lower)
  }

  /** The pool exists and refers to a live class that offers `e`. */
  ghost predicate PoolOffers(api: Api<ClassSpec>, lower: Lowering, pool: string, e: TypeSpec) {
    && pool != "" && api.Pool(pool).Found? && api.Pool(pool).value.Some?
    && var nodeClass := api.LiveClass(api.Pool(pool).value.value);
       nodeClass.Found? && Offers(nodeClass.value, lower, e)
  }

  /** The instance is found to have the processors, the memory and the operating system of `t`. */
  predicate Recovers(r: Resolution, t: InstanceType) {
    r.Resolved? && r.found.cpu == t.cpu && r.found.memory == t.memory && r.found.os == t.os
  }

  lemma {:induction false} FindIsFirst(types: seq<InstanceType>, name: string) returns (i: nat)
    requires Find(types, name).Some?
    ensures i < |types| && types[i] == Find(types, name).value && forall j :: 0 <= j < i ==> types[j].name != name
  {
    if types[0].name == name {
      i := 0;
    } else {
      var k := FindIsFirst(types[1..], name);
      i := k + 1;
    }
  }

  lemma FoundIff(c: ClassSpec, lower: Lowering, e: TypeSpec, n: int, name: string)
    ensures var found := Find(TypesOf(c, lower), name);
            var t := TypeOf(e, n, lower);
            found.Some? && found.value.cpu == t.cpu && found.value.memory == t.memory && found.value.os == t.os <==>
            name == t.name && Offers(c, lower, e)
  {
    hide Find, TypeName;
    var types := TypesOf(c, lower);
    var t := TypeOf(e, n, lower);
    assert forall i :: 0 <= i < |types| ==> types[i].name == EntryName(c.types[i], lower);
    assert forall k :: 0 <= k < |c.types| && SameEntry(c.types[k], e, lower) ==> types[k].name == t.name;
    if Find(types, name).Some? {
      var i := FindIsFirst(types, name);
      assert types[i].cpu == t.cpu && types[i].memory == t.memory && types[i].os == t.os <==>
             SameEntry(c.types[i], e, lower);
      if k :| name == t.name && 0 <= k < |c.types| && SameEntry(c.types[k], e, lower)
              && forall j :: 0 <= j < k ==> EntryName(c.types[j], lower) != EntryName(e, lower) {
        assert types[k].name == t.name;
        assert i == k;
      }
    }
  }

  /** An instance launched from entry `e` is found again from its tags, with the processors, the
      memory and the operating system it was launched with, if and only if the tags of the class
      give it no other type name, and the pool in its tags refers to a live class that offers such
      an entry first under its name. */
  lemma RecoverableIff(api: Api<ClassSpec>, lower: Lowering, e: TypeSpec, n: int, l: Launch,
                       r: Registry, order: seq<string>, ids: seq<TagId>, listing: seq<TagId>)
    requires ReadLater(l, TypeOf(e, n, lower), r, order, ids, listing)
    ensures var t := TypeOf(e, n, lower);
            Recovers(Resolve(api, lower, Extracted(r, listing)), t) <==>
              (SIZE !in l.classTags || l.classTags[SIZE] == t.name) && PoolOffers(api, lower, PoolTag(l), e)
  {
    var t := TypeOf(e, n, lower);
    ResolvedByTags(api, lower, l, t, r, order, ids, listing);
    hide Resolve, ReadLater, TypeOf, Find, TypesOf, Offers;
    var pool := api.Pool(PoolTag(l));
    if pool.Found? && pool.value.Some? && api.LiveClass(pool.value.value).Found? {
      FoundIff(api.LiveClass(pool.value.value).value, lower, e, n, SizeTag(l, t));
    }
  }

  /** In a class of plain entries, being first makes no difference: every listed entry is offered. */
  lemma PlainOffersIffListed(c: ClassSpec, lower: Lowering, e: TypeSpec)
    requires Plain(e) && forall i :: 0 <= i < |c.types| ==> Plain(c.types[i])
    ensures Offers(c, lower, e) <==> exists i :: 0 <= i < |c.types| && SameEntry(c.types[i], e, lower)
  {
    hide Plain, TypeName, SameEntry;
    if i :| 0 <= i < |c.types| && SameEntry(c.types[i], e, lower) {
      var k := FirstSame(c, lower, e, i);
      forall j | 0 <= j < k ensures EntryName(c.types[j], lower) != EntryName(e, lower) {
        NameDecides(c.types[j], e, lower, 0, 0);
      }
    }
  }

  lemma {:induction false} FirstSame(c: ClassSpec, lower: Lowering, e: TypeSpec, i: nat) returns (k: nat)
    requires i < |c.types| && SameEntry(c.types[i], e, lower)
    ensures k <= i && SameEntry(c.types[k], e, lower) && forall j :: 0 <= j < k ==> !SameEntry(c.types[j], e, lower)
    decreases i
  {
    if j :| 0 <= j < i && SameEntry(c.types[j], e, lower) {
      k := FirstSame(c, lower, e, j);
    } else {
      k := i;
    }
  }

  // ---------------------------------------------------------------------------
  // How the lookup goes wrong.
  // ---------------------------------------------------------------------------

  /** With a pool in the class tags that does not exist, only the name of the type is left. */
  lemma GonePoolLeavesName(api: Api<ClassSpec>, lower: Lowering, l: Launch, t: InstanceType,
                           r: Registry, order: seq<string>, ids: seq<TagId>, listing: seq<TagId>)
    requires ReadLater(l, t, r, order, ids, listing)
    requires l.classTags == map[NODE_POOL := "gone"] && "gone" !in api.pools && "gone" !in api.unreadablePools
    ensures Resolve(api, lower, Extracted(r, listing)) == NameOnly(t.name)
  {
    ResolvedByTags(api, lower, l, t, r, order, ids, listing);
    assert SIZE != NODE_POOL by { OwnTags(l, t); assert |SIZE| != |NODE_POOL|; }
  }

  /** Without a pool, or with a pool of a missing or terminating class, the lookup fails. */
  lemma NoLivePoolFails(api: Api<ClassSpec>, lower: Lowering, l: Launch, t: InstanceType,
                        r: Registry, order: seq<string>, ids: seq<TagId>, listing: seq<TagId>, name: string)
    requires ReadLater(l, t, r, order, ids, listing)
    requires PoolTag(l) == ""
             || (api.Pool(PoolTag(l)) == Found(Some(name)) && !api.LiveClass(name).Found?)
    ensures Resolve(api, lower, Extracted(r, listing)) == Failed
  {
    ResolvedByTags(api, lower, l, t, r, order, ids, listing);
  }

  /** So it does when the pool refers to a class, perhaps another one, without an entry of that name. */
  lemma EntryGoneFails(api: Api<ClassSpec>, lower: Lowering, e: TypeSpec, n: int, l: Launch, r: Registry,
                       order: seq<string>, ids: seq<TagId>, listing: seq<TagId>, name: string)
    requires ReadLater(l, TypeOf(e, n, lower), r, order, ids, listing)
    requires PoolTag(l) != "" && SIZE !in l.classTags
    requires api.Pool(PoolTag(l)) == Found(Some(name)) && api.LiveClass(name).Found?
    requires var types := api.LiveClass(name).value.types;
             forall i :: 0 <= i < |types| ==> EntryName(types[i], lower) != EntryName(e, lower)
    ensures Resolve(api, lower, Extracted(r, listing)) == Failed
  {
    ResolvedByTags(api, lower, l, TypeOf(e, n, lower), r, order, ids, listing);
    hide ResolveBy, ReadLater, Extracted, TypeName;
    NoEntryFails(api, lower, PoolTag(l), TypeOf(e, n, lower).name, name);
  }

  lemma NoEntryFails(api: Api<ClassSpec>, lower: Lowering, pool: string, size: string, name: string)
    requires pool != "" && api.Pool(pool) == Found(Some(name)) && api.LiveClass(name).Found?
    requires var types := api.LiveClass(name).value.types;
             forall i :: 0 <= i < |types| ==> EntryName(types[i], lower) != size
    ensures ResolveBy(api, lower, pool, size) == Failed
  {
    hide TypeName;
    var c := api.LiveClass(name).value;
    assert forall i :: 0 <= i < |c.types| ==> TypesOf(c, lower)[i].name == EntryName(c.types[i], lower);
  }

  /** An entry behind another one that differs from it in the unit only is not offered, and an
      instance of it comes back with four bytes of memory. */
  lemma ShadowedEntryIsLost(lower: Lowering, cpu: string, os: string)
    ensures var small := TypeSpec(cpu, "4", "110", os, "a");
            var large := TypeSpec(cpu, "4Gi", "110", os, "a");
            !Offers(ClassSpec([small, large], 30), lower, large)
  {
    UnitIsLost(cpu, lower(os));
    var small := TypeSpec(cpu, "4", "110", os, "a");
    var large := TypeSpec(cpu, "4Gi", "110", os, "a");
    var types := [small, large];
    assert !SameEntry(types[0], large, lower) by { assert |small.memory| != |large.memory|; }
    assert EntryName(types[0], lower) == EntryName(large, lower);
  }
}
