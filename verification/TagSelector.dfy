/** Selecting one object by its tags: objects are counted over the attachment lists of the tags,
    and a count equal to the number of tags is taken for membership in all of them. */
module TagSelector {
  import opened Prelude
  import opened Tags

  const NETWORK_KINDS := ["Network", "DistributedVirtualSwitch", "DistributedVirtualPortgroup", "OpaqueNetwork"]

  /** How often `o` occurs in all the lists together. */
  function Occurrences(lists: seq<seq<Ref>>, o: Ref): nat {
    if lists == [] then 0 else Occurrences(lists[..|lists| - 1], o) + multiset(lists[|lists| - 1])[o]
  }

  /** `o` is of the kind and in every list. */
  ghost predicate Selected(lists: seq<seq<Ref>>, kind: string, o: Ref) {
    o.kind == kind && forall l :: l in lists ==> o in l
  }

  ghost predicate AllDistinct(lists: seq<seq<Ref>>) {
    forall l :: l in lists ==> Distinct(l)
  }

  lemma {:induction false} DistinctOccursOnce(l: seq<Ref>, o: Ref)
    requires Distinct(l)
    ensures multiset(l)[o] == if o in l then 1 else 0
  {
    if l != [] {
      var init, last := l[..|l| - 1], l[|l| - 1];
      DistinctOccursOnce(init, o);
      assert l == init + [last];
    }
  }

  /** Counting is intersection, provided no list names an object twice. */
  lemma {:induction false} CountingIsIntersection(lists: seq<seq<Ref>>, o: Ref)
    requires AllDistinct(lists)
    ensures Occurrences(lists, o) <= |lists|
    ensures Occurrences(lists, o) == |lists| <==> forall l :: l in lists ==> o in l
  {
    if lists != [] {
      var init, last := lists[..|lists| - 1], lists[|lists| - 1];
      assert last in lists && lists == init + [last];
      CountingIsIntersection(init, o);
      DistinctOccursOnce(last, o);
    }
  }

  /** With a repetition the count selects an object that a tag is not attached to. */
  lemma RepetitionMiscounts(o: Ref)
    ensures Occurrences([[o, o], []], o) == 2 && !Selected([[o, o], []], o.kind, o)
  {
    var lists: seq<seq<Ref>> := [[o, o], []];
    assert lists[..1] == [[o, o]] && lists[..1][..0] == [];
    assert lists[1] == [] && lists[1] in lists && o !in lists[1];
    assert Occurrences(lists[..1], o) == Occurrences(lists[..1][..0], o) + multiset([o, o])[o];
    assert Occurrences(lists, o) == Occurrences(lists[..1], o) + multiset(lists[1])[o];
  }

  /** `counts` has an entry, with its number of occurrences, for every object of the kind met. */
  ghost predicate Counted(counts: map<Ref, nat>, lists: seq<seq<Ref>>, last: seq<Ref>, kind: string) {
    && (forall o :: o in counts <==> o.kind == kind && Occurrences(lists, o) + multiset(last)[o] > 0)
    && (forall o :: o in counts ==> counts[o] == Occurrences(lists, o) + multiset(last)[o])
  }

  method CountList(counts: map<Ref, nat>, ghost before: seq<seq<Ref>>, objs: seq<Ref>, kind: string)
    returns (counts': map<Ref, nat>)
    requires Counted(counts, before, [], kind)
    ensures Counted(counts', before, objs, kind)
  {
    counts' := counts;
    for j := 0 to |objs|
      invariant Counted(counts', before, objs[..j], kind)
    {
      var o := objs[j];
      assert objs[..j + 1] == objs[..j] + [o];
      if o.kind == kind {
        counts' := counts'[o := (if o in counts' then counts'[o] else 0) + 1];
      }
    }
    assert objs[..|objs|] == objs;
  }

  method CountObjects(lists: seq<seq<Ref>>, kind: string) returns (counts: map<Ref, nat>)
    ensures Counted(counts, lists, [], kind)
  {
    counts := map[];
    for i := 0 to |lists|
      invariant Counted(counts, lists[..i], [], kind)
    {
      counts := CountList(counts, lists[..i], lists[i], kind);
      assert lists[..i + 1][..i] == lists[..i];
    }
    assert lists[..|lists|] == lists;
  }

  /** Any object whose count is the number of tags: map iteration has no order. */
  method GetObjectByType(lists: seq<seq<Ref>>, kind: string) returns (r: Option<Ref>)
    ensures r.Some? ==> r.value.kind == kind && Occurrences(lists, r.value) == |lists|
    ensures AllDistinct(lists) ==>
              && (r.Some? <==> lists != [] && exists o :: Selected(lists, kind, o))
              && (r.Some? ==> Selected(lists, kind, r.value))
  {
    var counts := CountObjects(lists, kind);
    if o :| o in counts && counts[o] == |lists| {
      r := Some(o);
    } else {
      r := None;
    }
    if AllDistinct(lists) {
      forall o ensures Selected(lists, kind, o) <==> o.kind == kind && Occurrences(lists, o) == |lists| {
        CountingIsIntersection(lists, o);
      }
    }
  }

  // ---------------------------------------------------------------------------
  // By tags of the registry.
  // ---------------------------------------------------------------------------

  /** The tag named by an entry of a selector, if there is one. Selector keys are not renamed. */
  ghost predicate HasTag(r: Registry, key: string, value: string) {
    exists t :: r.Names(t, key, value)
  }

  /** `o` carries every tag of the selector. */
  ghost predicate Matches(r: Registry, attached: map<Ref, set<TagId>>, selector: map<string, string>, kind: string,
      o: Ref)
  {
    && o.kind == kind && o in attached
    && forall k :: k in selector ==> exists t :: t in attached[o] && r.Names(t, k, selector[k])
  }

  /** What selecting by tags promises: something is found exactly when every tag of a non-empty
      selector exists and some object of the kind carries them all. */
  ghost predicate Finds(r: Registry, attached: map<Ref, set<TagId>>, selector: map<string, string>, kind: string) {
    selector != map[] && exists o :: Matches(r, attached, selector, kind, o)
  }

  predicate IsNamed(r: Registry, t: TagId, key: string, value: string)
    requires t in r.tags
  {
    r.tags[t].name == value && r.tags[t].category in r.categories && r.categories[r.tags[t].category] == key
  }

  method GetTagId(r: Registry, key: string, value: string) returns (id: Option<TagId>)
    ensures id.Some? <==> HasTag(r, key, value)
    ensures id.Some? ==> r.Names(id.value, key, value)
  {
    if t :| t in r.tags && IsNamed(r, t, key, value) {
      assert r.Names(t, key, value);
      id := Some(t);
    } else {
      id := None;
    }
  }

  /** The objects a tag is attached to, each once, in any order. */
  method ListAttachedObjects(attached: map<Ref, set<TagId>>, t: TagId) returns (objs: seq<Ref>)
    ensures Distinct(objs)
    ensures forall o :: o in objs <==> o in attached && t in attached[o]
  {
    objs := [];
    var left := attached.Keys;
    while left != {}
      invariant left <= attached.Keys && Distinct(objs)
      invariant forall o :: o in objs <==> o in attached && o !in left && t in attached[o]
    {
      var o :| o in left;
      left := left - {o};
      if t in attached[o] {
        objs := objs + [o];
      }
    }
  }

  method GetObjectByTag(r: Registry, attached: map<Ref, set<TagId>>, selector: map<string, string>, order: seq<string>,
      kind: string)
    returns (found: Option<Ref>)
    requires r.Valid() && Lists(order, selector.Keys)
    ensures found.Some? <==> Finds(r, attached, selector, kind)
    ensures found.Some? ==> Matches(r, attached, selector, kind, found.value)
  {
    var lists: seq<seq<Ref>> := [];
    ghost var ids: seq<TagId> := [];
    for i := 0 to |order|
      invariant |lists| == |ids| == i && AllDistinct(lists)
      invariant AttachmentLists(r, attached, selector, order[..i], ids, lists)
    {
      assert order[i] in selector.Keys && order[..i + 1] == order[..i] + [order[i]];
      var id := GetTagId(r, order[i], selector[order[i]]);
      if id.None? {
        FindingNeedsTags(r, attached, selector, order[i], kind);
        return None;
      }
      var objs := ListAttachedObjects(attached, id.value);
      lists, ids := lists + [objs], ids + [id.value];
    }
    assert order[..|order|] == order;
    found := GetObjectByType(lists, kind);
    SelectionIsMatching(r, attached, selector, order, ids, lists, kind);
  }

  lemma FindingNeedsTags(r: Registry, attached: map<Ref, set<TagId>>, selector: map<string, string>, key: string,
      kind: string)
    requires key in selector
    ensures Finds(r, attached, selector, kind) ==> HasTag(r, key, selector[key])
  {
  }

  /** The lists are the attachment lists of the selector's tags, entry by entry. */
  ghost predicate AttachmentLists(
    r: Registry, attached: map<Ref, set<TagId>>, selector: map<string, string>, order: seq<string>,
    ids: seq<TagId>, lists: seq<seq<Ref>>)
  {
    && |lists| == |ids| == |order|
    && (forall j :: 0 <= j < |order| ==> order[j] in selector && r.Names(ids[j], order[j], selector[order[j]]))
    && (forall j, o :: 0 <= j < |order| ==> (o in lists[j] <==> o in attached && ids[j] in attached[o]))
  }

  lemma EmptyTogether(selector: map<string, string>, order: seq<string>)
    requires Lists(order, selector.Keys)
    ensures order == [] <==> selector == map[]
  {
    if order != [] {
      assert order[0] in selector.Keys;
    }
    if selector != map[] {
      var k :| k in selector.Keys;
      var _ := IndexIn(order, selector.Keys, k);
    }
  }

  lemma SelectedMatches(
    r: Registry, attached: map<Ref, set<TagId>>, selector: map<string, string>, order: seq<string>,
    ids: seq<TagId>, lists: seq<seq<Ref>>, kind: string, o: Ref)
    requires Lists(order, selector.Keys) && AttachmentLists(r, attached, selector, order, ids, lists) && lists != []
    requires Selected(lists, kind, o)
    ensures Matches(r, attached, selector, kind, o)
  {
    hide Registry.Names;
    assert o in lists[0];
    forall k | k in selector ensures exists t :: t in attached[o] && r.Names(t, k, selector[k]) {
      var j := IndexIn(order, selector.Keys, k);
      assert o in lists[j];
    }
  }

  lemma MatchSelected(
    r: Registry, attached: map<Ref, set<TagId>>, selector: map<string, string>, order: seq<string>,
    ids: seq<TagId>, lists: seq<seq<Ref>>, kind: string, o: Ref)
    requires r.Valid() && AttachmentLists(r, attached, selector, order, ids, lists)
    requires Matches(r, attached, selector, kind, o)
    ensures Selected(lists, kind, o)
  {
  }

  lemma {:induction false} SelectionIsMatching(
    r: Registry, attached: map<Ref, set<TagId>>, selector: map<string, string>, order: seq<string>,
    ids: seq<TagId>, lists: seq<seq<Ref>>, kind: string)
    requires r.Valid() && Lists(order, selector.Keys) && AttachmentLists(r, attached, selector, order, ids, lists)
    ensures lists == [] <==> selector == map[]
    ensures lists != [] ==> forall o :: Selected(lists, kind, o) <==> Matches(r, attached, selector, kind, o)
  {
    hide Selected, Matches, Lists, Registry.Valid, Registry.Names;
    EmptyTogether(selector, order);
    if lists != [] {
      forall o ensures Selected(lists, kind, o) <==> Matches(r, attached, selector, kind, o) {
        if Selected(lists, kind, o) {
          SelectedMatches(r, attached, selector, order, ids, lists, kind, o);
        }
        if Matches(r, attached, selector, kind, o) {
          MatchSelected(r, attached, selector, order, ids, lists, kind, o);
        }
      }
    }
  }

  datatype NetworkResult = Found(ref: Ref) | NoNetwork | Ambiguous

  /** What is found kind by kind; a kind without a match is passed over. */
  method ReferencesByTag(
    r: Registry, attached: map<Ref, set<TagId>>, selector: map<string, string>, order: seq<string>, kinds: seq<string>)
    returns (refs: seq<Ref>, from: seq<nat>)
    requires r.Valid() && Lists(order, selector.Keys)
    ensures |refs| == |from| && forall a, b :: 0 <= a < b < |from| ==> from[a] != from[b]
    ensures forall a :: 0 <= a < |from| ==> from[a] < |kinds| && Matches(r, attached, selector, kinds[from[a]], refs[a])
    ensures forall j :: 0 <= j < |kinds| ==> (Finds(r, attached, selector, kinds[j]) <==> j in from)
  {
    hide Finds, Matches, Lists, Registry.Valid;
    refs, from := [], [];
    for i := 0 to |kinds|
      invariant |refs| == |from| && forall a, b :: 0 <= a < b < |from| ==> from[a] != from[b]
      invariant forall a :: 0 <= a < |from| ==> from[a] < i && Matches(r, attached, selector, kinds[from[a]], refs[a])
      invariant forall j :: 0 <= j < i ==> (Finds(r, attached, selector, kinds[j]) <==> j in from)
    {
      var ref := GetObjectByTag(r, attached, selector, order, kinds[i]);
      if ref.Some? {
        refs, from := refs + [ref.value], from + [i];
      }
    }
  }

  /** Exactly one of the kinds has an object with all tags. */
  ghost predicate OneKindFinds(r: Registry, attached: map<Ref, set<TagId>>, selector: map<string, string>,
      kinds: seq<string>)
  {
    exists i :: 0 <= i < |kinds| && Finds(r, attached, selector, kinds[i])
                && forall j :: 0 <= j < |kinds| && j != i ==> !Finds(r, attached, selector, kinds[j])
  }

  method NetworkAmong(
    r: Registry, attached: map<Ref, set<TagId>>, selector: map<string, string>, order: seq<string>, kinds: seq<string>)
    returns (result: NetworkResult)
    requires r.Valid() && Lists(order, selector.Keys)
    ensures result.Found? ==> exists i :: 0 <= i < |kinds| && Matches(r, attached, selector, kinds[i], result.ref)
    ensures result.Found? <==> OneKindFinds(r, attached, selector, kinds)
    ensures result.NoNetwork? <==> forall i :: 0 <= i < |kinds| ==> !Finds(r, attached, selector, kinds[i])
  {
    hide Finds, Matches, Lists, Registry.Valid;
    var refs, from := ReferencesByTag(r, attached, selector, order, kinds);
    if |refs| == 0 {
      return NoNetwork;
    }
    assert from[0] in from && Finds(r, attached, selector, kinds[from[0]]);
    if |refs| > 1 {
      assert from[1] in from && Finds(r, attached, selector, kinds[from[1]]);
      return Ambiguous;
    }
    assert from == [from[0]];
    return Found(refs[0]);
  }

  ghost predicate IsNetwork(kind: string) {
    kind == "Network" || kind == "DistributedVirtualSwitch" || kind == "DistributedVirtualPortgroup"
    || kind == "OpaqueNetwork"
  }

  lemma KindsAreNetworks()
    ensures |NETWORK_KINDS| == 4
    ensures forall i :: 0 <= i < 4 ==> IsNetwork(NETWORK_KINDS[i])
    ensures forall kind :: IsNetwork(kind) ==> exists i :: 0 <= i < 4 && NETWORK_KINDS[i] == kind
    ensures forall i, j :: 0 <= i < j < 4 ==> NETWORK_KINDS[i] != NETWORK_KINDS[j]
  {
    var kinds := NETWORK_KINDS;
    assert |kinds[0]| == 7 && |kinds[1]| == 24 && |kinds[2]| == 27 && |kinds[3]| == 13;
    assert IsNetwork(kinds[0]) && IsNetwork(kinds[1]) && IsNetwork(kinds[2]) && IsNetwork(kinds[3]);
  }

  /** A network is found exactly when just one of the four kinds has an object with all tags. */
  method NetworkByTag(r: Registry, attached: map<Ref, set<TagId>>, selector: map<string, string>, order: seq<string>)
    returns (result: NetworkResult)
    requires r.Valid() && Lists(order, selector.Keys)
    ensures result.Found? ==>
        exists kind :: IsNetwork(kind) && Matches(r, attached, selector, kind, result.ref)
    ensures result.Found? <==>
        exists kind :: IsNetwork(kind) && Finds(r, attached, selector, kind)
                       && forall k :: IsNetwork(k) && k != kind ==> !Finds(r, attached, selector, k)
    ensures result.NoNetwork? <==> forall kind :: IsNetwork(kind) ==> !Finds(r, attached, selector, kind)
  {
    hide Finds, Matches, Lists, Registry.Valid, IsNetwork, NETWORK_KINDS;
    KindsAreNetworks();
    result := NetworkAmong(r, attached, selector, order, NETWORK_KINDS);
  }

  // ---------------------------------------------------------------------------
  // Tagged objects can be selected.
  // ---------------------------------------------------------------------------

  /** An object that was tagged with a zone is selected by it under the key that the cloud provider
      interface looks for, and by every other entry under the entry's own key. */
  lemma TaggedIsSelected(r: Registry, attached: map<Ref, set<TagId>>, o: Ref, m: map<string, string>)
    requires o in attached && Says(r, attached[o], m)
    ensures "topology.kubernetes.io/zone" in m ==>
              Matches(r, attached, map["k8s-zone" := m["topology.kubernetes.io/zone"]], o.kind, o)
    ensures forall k :: k in m && k != "topology.kubernetes.io/zone" ==> Matches(r, attached, map[k := m[k]], o.kind, o)
  {
    hide Registry.Names;
  }
}
