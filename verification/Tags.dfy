/** The tag registry of vCenter, as instances are tagged, read back and selected by tags. */
module Tags {
  import opened Prelude

  type CategoryId = nat
  type TagId = nat

  datatype Tag = Tag(name: string, category: CategoryId)

  /** A managed object: its type and its id. */
  datatype Ref = Ref(kind: string, id: string)

  const ZONE := "topology.kubernetes.io/zone"
  const K8S_ZONE := "k8s-zone"

  lemma ZoneKeysDiffer()
    ensures ZONE != K8S_ZONE
  {
  }

  /** The category that an instance tag key is written to. */
  function CategoryOf(key: string): string {
    if key == ZONE then K8S_ZONE else key
  }

  /** The key that a category is read back as. */
  function KeyOf(category: string): string {
    if category == K8S_ZONE then ZONE else category
  }

  /** Categories by id and tags by id. */
  datatype Registry = Registry(categories: map<CategoryId, string>, tags: map<TagId, Tag>, nextId: nat) {
    /** Category names are unique, and so are tag names within a category. */
    ghost predicate Valid() {
      && (forall c :: c in categories ==> c < nextId)
      && (forall t :: t in tags ==> t < nextId && tags[t].category in categories)
      && (forall c, d :: c in categories && d in categories && categories[c] == categories[d] ==> c == d)
      && (forall t, u :: t in tags && u in tags && tags[t] == tags[u] ==> t == u)
    }

    /** Tag `t` has this category and this name. */
    ghost predicate Names(t: TagId, category: string, name: string) {
      && t in tags && tags[t].name == name
      && tags[t].category in categories && categories[tags[t].category] == category
    }

    /** Every entry of `m` has its tag already. */
    ghost predicate Registered(m: map<string, string>) {
      forall k :: k in m ==> exists t :: Names(t, CategoryOf(k), m[k])
    }

    /** Every entry of `m` has its tag in `ids`. */
    ghost predicate Carries(ids: set<TagId>, m: map<string, string>) {
      forall k :: k in m ==> exists t :: t in ids && Names(t, CategoryOf(k), m[k])
    }

    predicate Readable(ids: seq<TagId>) {
      forall id :: id in ids ==> id in tags && tags[id].category in categories
    }

    function KeyOfTag(id: TagId): string
      requires id in tags && tags[id].category in categories
    {
      KeyOf(categories[tags[id].category])
    }

    /** `ids` are the tags of the entries of `m`, in the order in which they were traversed. */
    ghost predicate Written(m: map<string, string>, order: seq<string>, ids: seq<TagId>) {
      && |ids| == |order|
      && forall i :: 0 <= i < |ids| ==> order[i] in m && Names(ids[i], CategoryOf(order[i]), m[order[i]])
    }
  }

  /** Reads tags in the order listed; of two tags read as the same key the later one counts. */
  function Extracted(r: Registry, ids: seq<TagId>): map<string, string>
    requires r.Readable(ids)
  {
    if ids == [] then map[]
    else
      var last := ids[|ids| - 1];
      Extracted(r, ids[..|ids| - 1])[r.KeyOfTag(last) := r.tags[last].name]
  }

  /** Whatever a tag was called in `r` it is called in `s`. */
  ghost predicate Grows(r: Registry, s: Registry) {
    forall t, category, name :: r.Names(t, category, name) ==> s.Names(t, category, name)
  }

  /** Every category in `s` was in `r`, or is one that an entry of `m` is written to: `k8s-zone` for the
      topology zone, and the key itself for every other key. */
  ghost predicate OnlyWritten(r: Registry, s: Registry, m: map<string, string>) {
    forall c :: c in s.categories ==>
      || (c in r.categories && s.categories[c] == r.categories[c])
      || (s.categories[c] == "k8s-zone" && "topology.kubernetes.io/zone" in m)
      || (s.categories[c] in m && s.categories[c] != "topology.kubernetes.io/zone")
  }

  /** Every category in `s` was in `r`, or has this name. */
  ghost predicate AddsAtMost(r: Registry, s: Registry, name: string) {
    forall c :: c in s.categories ==>
      (c in r.categories && s.categories[c] == r.categories[c]) || s.categories[c] == name
  }

  lemma NothingWritten(r: Registry, m: map<string, string>)
    ensures OnlyWritten(r, r, m)
  {
  }

  lemma StillOnlyWritten(r: Registry, mid: Registry, s: Registry, m: map<string, string>, k: string)
    requires OnlyWritten(r, mid, m) && k in m && AddsAtMost(mid, s, CategoryOf(k))
    ensures OnlyWritten(r, s, m)
  {
    assert CategoryOf("topology.kubernetes.io/zone") == "k8s-zone";
    assert k != "topology.kubernetes.io/zone" ==> CategoryOf(k) == k;
  }

  /** The tags in `ids` say what `m` says, in the words of the cloud provider interface. */
  ghost predicate Says(r: Registry, ids: set<TagId>, m: map<string, string>) {
    && ("topology.kubernetes.io/zone" in m ==>
          exists t :: t in ids && r.Names(t, "k8s-zone", m["topology.kubernetes.io/zone"]))
    && forall k :: k in m && k != "topology.kubernetes.io/zone" ==> exists t :: t in ids && r.Names(t, k, m[k])
  }

  lemma CarriesIsSays(r: Registry, ids: set<TagId>, m: map<string, string>)
    ensures r.Carries(ids, m) <==> Says(r, ids, m)
  {
    hide Registry.Names;
    assert forall k :: k in m && k != "topology.kubernetes.io/zone" ==> CategoryOf(k) == k;
    assert CategoryOf("topology.kubernetes.io/zone") == "k8s-zone";
  }

  class TagManager {
    var registry: Registry
    var attached: map<Ref, set<TagId>>

    constructor ()
      ensures registry.Valid() && registry.categories == map[] && registry.tags == map[] && attached == map[]
    {
      registry, attached := Registry(map[], map[], 0), map[];
    }

    function TagsOf(o: Ref): set<TagId>
      reads this`attached
    {
      if o in attached then attached[o] else {}
    }

    method CreateOrUpdateCategory(name: string) returns (id: CategoryId)
      requires registry.Valid()
      modifies this`registry
      ensures registry.Valid() && registry.tags == old(registry).tags
      ensures id in registry.categories && registry.categories[id] == name
      ensures if name in old(registry).categories.Values then registry == old(registry)
              else id !in old(registry).categories && registry.categories == old(registry).categories[id := name]
    {
      if c :| c in registry.categories && registry.categories[c] == name {
        return c;
      }
      id := registry.nextId;
      registry := registry.(categories := registry.categories[id := name], nextId := registry.nextId + 1);
    }

    method GetOrCreateTag(name: string, category: CategoryId) returns (id: TagId)
      requires registry.Valid() && category in registry.categories
      modifies this`registry
      ensures registry.Valid() && registry.categories == old(registry).categories
      ensures id in registry.tags && registry.tags[id] == Tag(name, category)
      ensures if Tag(name, category) in old(registry).tags.Values then registry == old(registry)
              else id !in old(registry).tags && registry.tags == old(registry).tags[id := Tag(name, category)]
    {
      if t :| t in registry.tags && registry.tags[t] == Tag(name, category) {
        return t;
      }
      id := registry.nextId;
      registry := registry.(tags := registry.tags[id := Tag(name, category)], nextId := registry.nextId + 1);
    }

    /** The tag of one entry, found or created together with its category. */
    method GetOrCreateEntry(key: string, value: string) returns (tag: TagId)
      requires registry.Valid()
      modifies this`registry
      ensures registry.Valid() && Grows(old(registry), registry)
      ensures registry.Names(tag, CategoryOf(key), value)
      ensures (exists t :: old(registry).Names(t, CategoryOf(key), value)) ==> registry == old(registry)
      ensures AddsAtMost(old(registry), registry, CategoryOf(key))
    {
      var category := CreateOrUpdateCategory(CategoryOf(key));
      tag := GetOrCreateTag(value, category);
    }

    /** The map is traversed in some order, which Go leaves open. */
    method CreateOrUpdateTags(m: map<string, string>, order: seq<string>) returns (ids: seq<TagId>)
      requires registry.Valid() && Lists(order, m.Keys)
      modifies this`registry
      ensures registry.Valid() && Grows(old(registry), registry)
      ensures registry.Written(m, order, ids)
      ensures OnlyWritten(old(registry), registry, m)
      ensures old(registry).Registered(m) ==> registry == old(registry)
    {
      hide Registry.Names, OnlyWritten, AddsAtMost;
      NothingWritten(registry, m);
      ids := [];
      for i := 0 to |order|
        invariant registry.Valid() && Grows(old(registry), registry)
        invariant registry.Written(m, order[..i], ids)
        invariant OnlyWritten(old(registry), registry, m)
        invariant old(registry).Registered(m) ==> registry == old(registry)
      {
        var k := order[i];
        assert k in m.Keys;
        ghost var before := registry;
        var tag := GetOrCreateEntry(k, m[k]);
        StillOnlyWritten(old(registry), before, registry, m, k);
        ids := ids + [tag];
        assert order[..i + 1] == order[..i] + [k];
      }
      assert order[..|order|] == order;
    }

    method AttachTag(id: TagId, o: Ref)
      modifies this`attached
      ensures attached == old(attached)[o := old(TagsOf(o)) + {id}]
    {
      attached := attached[o := TagsOf(o) + {id}];
    }

    ghost predicate Tagged(o: Ref, m: map<string, string>)
      reads this
    {
      registry.Carries(TagsOf(o), m)
    }

    method AttachAll(ids: seq<TagId>, o: Ref)
      modifies this`attached
      ensures TagsOf(o) == old(TagsOf(o)) + Elements(ids)
      ensures forall other :: other != o ==> TagsOf(other) == old(TagsOf(other))
      ensures Elements(ids) <= old(TagsOf(o)) ==> attached == old(attached)
    {
      for i := 0 to |ids|
        invariant TagsOf(o) == old(TagsOf(o)) + Elements(ids[..i])
        invariant forall other :: other != o ==> TagsOf(other) == old(TagsOf(other))
        invariant Elements(ids) <= old(TagsOf(o)) ==> attached == old(attached)
      {
        assert ids[..i + 1] == ids[..i] + [ids[i]];
        assert ids[i] in Elements(ids);
        assert ids[i] in TagsOf(o) ==> attached[o := TagsOf(o) + {ids[i]}] == attached by {
          assert ids[i] in TagsOf(o) ==> TagsOf(o) + {ids[i]} == TagsOf(o);
        }
        AttachTag(ids[i], o);
      }
      assert ids[..|ids|] == ids;
    }

    /** Tags `o` with the entries of `m`; tagging it again changes nothing at all. */
    method TagInstance(o: Ref, m: map<string, string>, order: seq<string>) returns (ids: seq<TagId>)
      requires registry.Valid() && Lists(order, m.Keys)
      modifies this
      ensures registry.Valid() && Grows(old(registry), registry)
      ensures registry.Written(m, order, ids)
      ensures TagsOf(o) == old(TagsOf(o)) + Elements(ids)
      ensures forall other :: other != o ==> TagsOf(other) == old(TagsOf(other))
      ensures Tagged(o, m) && Says(registry, TagsOf(o), m)
      ensures OnlyWritten(old(registry), registry, m)
      ensures old(Tagged(o, m)) ==> registry == old(registry) && attached == old(attached)
    {
      ids := CreateOrUpdateTags(m, order);
      if old(Tagged(o, m)) {
        AllRegistered(old(registry), m, old(TagsOf(o)));
        OnlyCarriedTags(registry, m, order, ids, TagsOf(o));
      }
      AttachAll(ids, o);
      WrittenIsTagged(registry, m, order, ids, TagsOf(o));
      CarriesIsSays(registry, TagsOf(o), m);
    }

    /** `TagsFromVM`: the listing gives the attached tags in an order of its own. */
    method TagsFromVM(o: Ref, listing: seq<TagId>) returns (m: map<string, string>)
      requires Lists(listing, TagsOf(o)) && registry.Readable(listing)
      ensures m == Extracted(registry, listing)
    {
      m := map[];
      for i := 0 to |listing|
        invariant m == Extracted(registry, listing[..i])
      {
        assert listing[..i + 1][..i] == listing[..i];
        var tag := registry.tags[listing[i]];
        var category := registry.categories[tag.category];
        if category == K8S_ZONE {
          category := ZONE;
        }
        m := m[category := tag.name];
      }
      assert listing[..|listing|] == listing;
    }
  }

  lemma AllRegistered(r: Registry, m: map<string, string>, carried: set<TagId>)
    requires r.Carries(carried, m)
    ensures r.Registered(m)
  {
  }

  lemma OnlyCarriedTags(r: Registry, m: map<string, string>, order: seq<string>, ids: seq<TagId>, carried: set<TagId>)
    requires r.Valid() && r.Written(m, order, ids) && r.Carries(carried, m)
    ensures Elements(ids) <= carried
  {
  }

  lemma WrittenIsTagged(r: Registry, m: map<string, string>, order: seq<string>, ids: seq<TagId>, carried: set<TagId>)
    requires Lists(order, m.Keys) && r.Written(m, order, ids) && Elements(ids) <= carried
    ensures r.Carries(carried, m)
  {
  }

  // ---------------------------------------------------------------------------
  // Reading back what was written.
  // ---------------------------------------------------------------------------

  /** Both zone keys are given, and disagree. */
  predicate ZoneClash(m: map<string, string>) {
    ZONE in m && K8S_ZONE in m && m[ZONE] != m[K8S_ZONE]
  }

  /** `m` with "k8s-zone" renamed to the topology zone key. */
  function Renamed(m: map<string, string>): map<string, string> {
    if ZONE in m then m - {K8S_ZONE}
    else if K8S_ZONE in m then (m - {K8S_ZONE})[ZONE := m[K8S_ZONE]]
    else m
  }

  /** Each key read is the key of some listed tag, with its name, and each listed tag has its key. */
  lemma {:induction false} ExtractedFromListed(r: Registry, ids: seq<TagId>)
    requires r.Readable(ids)
    ensures var e := Extracted(r, ids);
            && (forall i :: 0 <= i < |ids| ==> r.KeyOfTag(ids[i]) in e)
            && (forall key :: key in e ==>
               exists i :: 0 <= i < |ids| && r.KeyOfTag(ids[i]) == key && r.tags[ids[i]].name == e[key])
    decreases |ids|
  {
    if ids != [] {
      var n := |ids| - 1;
      ExtractedFromListed(r, ids[..n]);
      var e, before := Extracted(r, ids), Extracted(r, ids[..n]);
      forall key | key in e
        ensures exists i :: 0 <= i < |ids| && r.KeyOfTag(ids[i]) == key && r.tags[ids[i]].name == e[key]
      {
        if key == r.KeyOfTag(ids[n]) {
          assert r.tags[ids[n]].name == e[key];
        } else {
          var i :| 0 <= i < n && r.KeyOfTag(ids[..n][i]) == key && r.tags[ids[..n][i]].name == before[key];
          assert ids[i] == ids[..n][i];
        }
      }
      forall i | 0 <= i < |ids| ensures r.KeyOfTag(ids[i]) in e {
        if i < n { assert ids[i] == ids[..n][i]; }
      }
    }
  }

  /** Each entry is found in the listing ... */
  lemma EntryIsListed(r: Registry, m: map<string, string>, order: seq<string>, ids: seq<TagId>, listing: seq<TagId>,
      k: string)
    requires Lists(order, m.Keys) && r.Written(m, order, ids) && Lists(listing, Elements(ids)) && r.Readable(listing)
    requires k in m
    ensures KeyOf(CategoryOf(k)) in Extracted(r, listing)
  {
    ExtractedFromListed(r, listing);
    var j := IndexIn(order, m.Keys, k);
    assert r.Names(ids[j], CategoryOf(k), m[k]);
    assert ids[j] in Elements(ids);
    var i := IndexIn(listing, Elements(ids), ids[j]);
    assert r.KeyOfTag(listing[i]) == KeyOf(CategoryOf(k));
  }

  /** ... and each key read is that of an entry, with the entry's value. */
  lemma ReadFromEntry(r: Registry, m: map<string, string>, order: seq<string>, ids: seq<TagId>, listing: seq<TagId>,
      key: string)
    returns (k: string)
    requires r.Written(m, order, ids) && Lists(listing, Elements(ids)) && r.Readable(listing)
    requires key in Extracted(r, listing)
    ensures k in m && KeyOf(CategoryOf(k)) == key && Extracted(r, listing)[key] == m[k]
  {
    ExtractedFromListed(r, listing);
    var i :| 0 <= i < |listing| && r.KeyOfTag(listing[i]) == key
        && r.tags[listing[i]].name == Extracted(r, listing)[key];
    var j := PositionOf(ids, listing, i);
    assert r.Names(ids[j], CategoryOf(order[j]), m[order[j]]);
    k := order[j];
  }

  lemma PositionOf(ids: seq<TagId>, listing: seq<TagId>, i: nat) returns (j: nat)
    requires Lists(listing, Elements(ids)) && i < |listing|
    ensures j < |ids| && ids[j] == listing[i]
  {
    assert listing[i] in Elements(ids);
    j :| 0 <= j < |ids| && ids[j] == listing[i];
  }

  /** Each key apart from the zone keys is read back with its own value, in every order. */
  lemma OrdinaryKeysReadBack(r: Registry, m: map<string, string>, order: seq<string>, ids: seq<TagId>,
      listing: seq<TagId>, key: string)
    requires Lists(order, m.Keys) && r.Written(m, order, ids) && Lists(listing, Elements(ids)) && r.Readable(listing)
    requires key in m && key != ZONE && key != K8S_ZONE
    ensures key in Extracted(r, listing) && Extracted(r, listing)[key] == m[key]
  {
    hide Lists, Elements, Registry.Written, Registry.Readable;
    EntryIsListed(r, m, order, ids, listing, key);
    var k := ReadFromEntry(r, m, order, ids, listing, key);
  }

  /** Without a clash every order of the listing gives back the map, its zone key renamed. */
  lemma ReadBack(r: Registry, m: map<string, string>, order: seq<string>, ids: seq<TagId>, listing: seq<TagId>)
    requires Lists(order, m.Keys) && r.Written(m, order, ids) && Lists(listing, Elements(ids)) && r.Readable(listing)
    requires !ZoneClash(m)
    ensures Extracted(r, listing) == Renamed(m)
  {
    hide Lists, Elements, Registry.Written, Registry.Readable, Extracted;
    ZoneKeysDiffer();
    forall key | key in Extracted(r, listing)
      ensures key in Renamed(m) && Extracted(r, listing)[key] == Renamed(m)[key]
    {
      var k := ReadFromEntry(r, m, order, ids, listing, key);
    }
    forall key | key in Renamed(m) ensures key in Extracted(r, listing) {
      EntryIsListed(r, m, order, ids, listing, if key in m then key else K8S_ZONE);
    }
  }

  /** Any element can be listed last. */
  lemma {:induction false} ListEndingWith<T>(s: set<T>, x: T) returns (order: seq<T>)
    requires x in s
    ensures Lists(order, s) && |order| > 0 && order[|order| - 1] == x
    decreases |s|
  {
    var rest := s - {x};
    if rest == {} {
      order := [x];
      assert s == {x};
    } else {
      var y :| y in rest;
      var before := ListEndingWith(rest, y);
      order := before + [x];
      forall z | z in s ensures z in order {
        if z != x { assert z in before; }
      }
    }
  }

  /** Writing and reading back is exact, whatever the listing's order, if and only if the two
      zone keys are not both given with different values. */
  lemma ReadBackIffNoClash(r: Registry, m: map<string, string>, order: seq<string>, ids: seq<TagId>)
    requires Lists(order, m.Keys) && r.Written(m, order, ids)
    ensures (forall listing :: Lists(listing, Elements(ids)) && r.Readable(listing) ==>
        Extracted(r, listing) == Renamed(m))
            <==> !ZoneClash(m)
  {
    if ZoneClash(m) {
      ZoneKeysDiffer();
      assert K8S_ZONE in m.Keys;
      var j :| 0 <= j < |order| && order[j] == K8S_ZONE;
      var listing := ListEndingWith(Elements(ids), ids[j]);
      WrittenIsReadable(r, m, order, ids, listing);
      assert Extracted(r, listing)[ZONE] == m[K8S_ZONE];
    } else {
      forall listing | Lists(listing, Elements(ids)) && r.Readable(listing)
        ensures Extracted(r, listing) == Renamed(m)
      {
        ReadBack(r, m, order, ids, listing);
      }
    }
  }

  lemma WrittenIsReadable(r: Registry, m: map<string, string>, order: seq<string>, ids: seq<TagId>, listing: seq<TagId>)
    requires r.Written(m, order, ids) && Lists(listing, Elements(ids))
    ensures r.Readable(listing)
  {
  }

  /** The zone that was written under the topology key is read back under it, and nothing under the
      key that it has in the registry, whatever the listing's order. */
  lemma ZoneReadsBack(r: Registry, m: map<string, string>, order: seq<string>, ids: seq<TagId>, listing: seq<TagId>)
    requires Lists(order, m.Keys) && r.Written(m, order, ids) && Lists(listing, Elements(ids)) && r.Readable(listing)
    requires "topology.kubernetes.io/zone" in m && "k8s-zone" !in m
    ensures var e := Extracted(r, listing);
            && "topology.kubernetes.io/zone" in e
            && e["topology.kubernetes.io/zone"] == m["topology.kubernetes.io/zone"]
            && "k8s-zone" !in e
  {
    ReadBack(r, m, order, ids, listing);
    hide Extracted;
    ZoneKeysDiffer();
  }
}
