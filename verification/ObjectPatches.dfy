/** What the controllers patch in the objects of the API server, and why their patches do not
    lose one another. */
module ObjectPatches {
  import opened Prelude
  import opened MergePatch
  import Drift
  import Termination

  const ANNOTATIONS := ["metadata", "annotations"]
  const FINALIZERS := ["metadata", "finalizers"]
  const STATUS := ["status"]

  // ---------------------------------------------------------------------------
  // Places in a document.
  // ---------------------------------------------------------------------------

  function At(j: Json, path: seq<string>): Option<Json>
    decreases path
  {
    if path == [] then Some(j)
    else if path[0] in Members(j) then At(Members(j)[path[0]], path[1..])
    else None
  }

  function ValueAt(j: Json, path: seq<string>): Json {
    match At(j, path)
    case None => Null
    case Some(v) => v
  }

  /** The place exists, except for its last member. */
  predicate Reaches(j: Json, path: seq<string>)
    decreases path
  {
    j.Obj? && path != [] && (|path| == 1 || (path[0] in j.members && Reaches(j.members[path[0]], path[1..])))
  }

  /** The document with something else at the place, or nothing. */
  function Put(j: Json, path: seq<string>, v: Option<Json>): (r: Json)
    requires Reaches(j, path)
    ensures r.Obj?
    decreases path
  {
    if |path| == 1 then
      (match v
       case None => Obj(j.members - {path[0]})
       case Some(w) => Obj(j.members[path[0] := w]))
    else Obj(j.members[path[0] := Put(j.members[path[0]], path[1..], v)])
  }

  /** The patch writes at the place only. */
  predicate Within(p: Json, path: seq<string>)
    decreases path
  {
    path == [] || (p.Obj? && forall k :: k in p.members ==> k == path[0] && Within(p.members[k], path[1..]))
  }

  /** Neither place contains the other. */
  predicate Diverge(x: seq<string>, y: seq<string>)
    decreases x
  {
    x != [] && y != [] && (x[0] != y[0] || Diverge(x[1..], y[1..]))
  }

  lemma {:induction false} DivergingCompatible(p: Json, q: Json, x: seq<string>, y: seq<string>)
    requires Within(p, x) && Within(q, y) && Diverge(x, y)
    ensures Compatible(p, q)
    decreases x
  {
    forall k | k in p.members && k in q.members ensures Compatible(p.members[k], q.members[k]) {
      DivergingCompatible(p.members[k], q.members[k], x[1..], y[1..]);
    }
  }

  /** A patch within one place leaves every place apart from it as it was. */
  lemma {:induction false} UntouchedElsewhere(target: Json, p: Json, x: seq<string>, y: seq<string>)
    requires Within(p, x) && Diverge(x, y)
    ensures At(Apply(target, p), y) == At(target, y)
    decreases x
  {
    if y[0] in p.members {
      UntouchedElsewhere(Get(target, y[0]), p.members[y[0]], x[1..], y[1..]);
    }
  }

  lemma {:induction false} DiffWithin(a: Json, path: seq<string>, v: Option<Json>)
    requires Reaches(a, path)
    ensures Within(Diff(a, Put(a, path, v)), path)
    decreases path
  {
    var b := Put(a, path, v);
    forall k | k in Diff(a, b).members ensures k == path[0] {
      if k in a.members && a.members[k].Obj? {
        EmptyIffUnchanged(a.members[k], a.members[k]);
      }
    }
    if |path| > 1 {
      DiffWithin(a.members[path[0]], path[1..], v);
    }
  }

  lemma {:induction false} NothingNewNoNull(a: Json)
    requires a.Obj?
    ensures NoNewNull(a, a)
    decreases a
  {
    forall k | k in a.members && a.members[k].Obj? ensures NoNewNull(a.members[k], a.members[k]) {
      NothingNewNoNull(a.members[k]);
    }
  }

  /** Putting something without nulls anywhere is a change that a patch can express. */
  lemma {:induction false} PutIsReproduced(a: Json, path: seq<string>, v: Option<Json>)
    requires Reaches(a, path) && (v.Some? ==> NullFree(v.value))
    ensures Apply(a, Diff(a, Put(a, path, v))) == Put(a, path, v)
  {
    PutBringsNoNull(a, path, v);
    PatchReproducesIff(a, Put(a, path, v));
  }

  lemma {:induction false} PutBringsNoNull(a: Json, path: seq<string>, v: Option<Json>)
    requires Reaches(a, path) && (v.Some? ==> NullFree(v.value))
    ensures NoNewNull(a, Put(a, path, v))
    decreases path
  {
    var b := Put(a, path, v);
    forall k | k in a.members && a.members[k].Obj? ensures NoNewNull(a.members[k], a.members[k]) {
      NothingNewNoNull(a.members[k]);
    }
    if |path| > 1 {
      PutBringsNoNull(a.members[path[0]], path[1..], v);
    } else if v.Some? && v.value.Obj? && path[0] in a.members && a.members[path[0]].Obj? {
      NullFreeIsNew(a.members[path[0]], v.value);
    }
  }

  lemma {:induction false} NullFreeIsNew(a: Json, b: Json)
    requires a.Obj? && b.Obj? && NullFree(b)
    ensures NoNewNull(a, b)
    decreases a
  {
    forall k | k in b.members && k in a.members && a.members[k].Obj? && b.members[k].Obj?
      ensures NoNewNull(a.members[k], b.members[k])
    {
      NullFreeIsNew(a.members[k], b.members[k]);
    }
  }

  // ---------------------------------------------------------------------------
  // The controllers' patches.
  // ---------------------------------------------------------------------------

  /** Every object has metadata. */
  predicate IsObject(doc: Json) {
    doc.Obj? && "metadata" in doc.members && doc.members["metadata"].Obj?
  }

  function Annotations(doc: Json): map<string, Json> {
    Members(ValueAt(doc, ANNOTATIONS))
  }

  /** The annotations of a copy with the current hash and version. */
  function Stamped(copy: Json, hash: string): map<string, Json> {
    Annotations(copy)[Drift.HASH := Str(hash)][Drift.HASH_VERSION := Str(Drift.CURRENT_VERSION)]
  }

  /** The finalizer list; an absent one is empty. */
  function Finalizers(doc: Json): seq<Json> {
    match At(doc, FINALIZERS)
    case Some(Arr(items)) => items
    case _ => []
  }

  function Without(items: seq<Json>, item: Json): (r: seq<Json>)
    ensures forall f :: f in r <==> f in items && f != item
  {
    if items == [] then []
    else if items[0] == item then Without(items[1..], item)
    else [items[0]] + Without(items[1..], item)
  }

  /** An empty list is left out of the document. */
  function PutFinalizers(doc: Json, items: seq<Json>): (r: Json)
    requires IsObject(doc)
    ensures r.Obj?
  {
    Put(doc, FINALIZERS, if items == [] then None else Some(Arr(items)))
  }

  datatype Writer =
    | Hash(copy: Json, hash: string)
    | Status(copy: Json, status: Json)
    | RemoveFinalizer(copy: Json)
    | AddFinalizer(copy: Json)
  {
    /** The copy as the controller changes it. */
    function Changed(): (r: Json)
      requires IsObject(copy)
      ensures r.Obj?
    {
      match this
      case Hash(_, hash) =>
        Put(copy, ANNOTATIONS, Some(Obj(Stamped(copy, hash))))
      case Status(_, status) => Put(copy, STATUS, Some(status))
      case RemoveFinalizer(_) => PutFinalizers(copy, Without(Finalizers(copy), Str(Termination.TERMINATION)))
      case AddFinalizer(_) => PutFinalizers(copy, Finalizers(copy) + [Str(Termination.TERMINATION)])
    }

    function Patch(): (p: Json)
      requires IsObject(copy)
    {
      Diff(copy, Changed())
    }

    function Place(): seq<string> {
      match this
      case Hash(_, _) => ANNOTATIONS
      case Status(_, _) => STATUS
      case RemoveFinalizer(_) => FINALIZERS
      case AddFinalizer(_) => FINALIZERS
    }
  }

  /** Whatever copy it was made from, however old, a controller's patch writes at its own place. */
  lemma PatchWithinPlace(w: Writer)
    requires IsObject(w.copy)
    ensures Within(w.Patch(), w.Place())
  {
    assert Reaches(w.copy, ANNOTATIONS) && Reaches(w.copy, FINALIZERS) && Reaches(w.copy, STATUS);
    match w {
      case Hash(copy, hash) =>
        DiffWithin(copy, ANNOTATIONS, Some(Obj(Stamped(copy, hash))));
      case Status(copy, status) =>
        DiffWithin(copy, STATUS, Some(status));
      case RemoveFinalizer(copy) =>
        var items := Without(Finalizers(copy), Str(Termination.TERMINATION));
        DiffWithin(copy, FINALIZERS, if items == [] then None else Some(Arr(items)));
      case AddFinalizer(copy) =>
        DiffWithin(copy, FINALIZERS, Some(Arr(Finalizers(copy) + [Str(Termination.TERMINATION)])));
    }
  }

  lemma PlacesDiverge(x: Writer, y: Writer)
    requires x.Place() != y.Place()
    ensures Diverge(x.Place(), y.Place())
  {
  }

  // ---------------------------------------------------------------------------
  // The API server.
  // ---------------------------------------------------------------------------

  datatype Stored = Stored(version: nat, body: Json)

  /** `lock` is the resource version of the copy, when the patch carries it. */
  datatype Write = Write(patch: Json, lock: Option<nat>)

  predicate Conflicts(s: Stored, w: Write) {
    w.lock.Some? && w.lock.value != s.version
  }

  /** A conflicting write is refused; one that changes nothing makes no version. */
  function Accept(s: Stored, w: Write): Stored {
    if Conflicts(s, w) || InForce(s.body, w.patch) then s
    else Stored(s.version + 1, Apply(s.body, w.patch))
  }

  function AcceptAll(s: Stored, writes: seq<Write>): Stored
    decreases |writes|
  {
    if writes == [] then s else Accept(AcceptAll(s, writes[..|writes| - 1]), writes[|writes| - 1])
  }

  /** No write made later at another place, in any number and order and from copies of any age,
      undoes a controller's write. */
  lemma {:induction false} NoLostUpdates(s: Stored, w: Writer, lock: Option<nat>, later: seq<Write>,
      others: seq<Writer>)
    requires IsObject(w.copy) && !Conflicts(s, Write(w.Patch(), lock))
    requires |others| == |later|
    requires forall i :: 0 <= i < |later| ==>
        IsObject(others[i].copy) && later[i].patch == others[i].Patch() && others[i].Place() != w.Place()
    ensures InForce(AcceptAll(Accept(s, Write(w.Patch(), lock)), later).body, w.Patch())
    decreases |later|
  {
    var p := w.Patch();
    if later == [] {
      MadeIsInForce(s.body, p);
    } else {
      var n := |later| - 1;
      NoLostUpdates(s, w, lock, later[..n], others[..n]);
      var before := AcceptAll(Accept(s, Write(p, lock)), later[..n]);
      var q := others[n].Patch();
      PatchWithinPlace(w);
      PatchWithinPlace(others[n]);
      PlacesDiverge(w, others[n]);
      DivergingCompatible(p, q, w.Place(), others[n].Place());
      StaysInForceIff(before.body, p, q);
      hide Apply, Diff, Compatible, Within;
      assert later[n].patch == q;
    }
  }

  /** As long as the version is the same, so is the document. */
  lemma {:induction false} SameVersionSameBody(s: Stored, writes: seq<Write>)
    ensures AcceptAll(s, writes).version >= s.version
    ensures AcceptAll(s, writes).version == s.version ==> AcceptAll(s, writes) == s
    decreases |writes|
  {
    if writes != [] {
      SameVersionSameBody(s, writes[..|writes| - 1]);
    }
  }

  /** Removing the finalizer with the version of the copy: after any writes by anyone since the
      copy was read, either the document is still the copy and loses exactly that finalizer, or
      the removal is refused and nothing changes. */
  lemma LockedRemovalIsExact(read: Stored, writes: seq<Write>)
    requires IsObject(read.body)
    ensures var now := AcceptAll(read, writes);
            var removal := Write(RemoveFinalizer(read.body).Patch(), Some(read.version));
            var after := Accept(now, removal);
            && (Conflicts(now, removal) <==> now != read)
            && (now != read ==> after == now)
            && (now == read ==>
                  && after.body == PutFinalizers(now.body, Without(Finalizers(now.body), Str(Termination.TERMINATION)))
                  && Finalizers(after.body) == Without(Finalizers(now.body), Str(Termination.TERMINATION)))
  {
    SameVersionSameBody(read, writes);
    var items := Without(Finalizers(read.body), Str(Termination.TERMINATION));
    PutIsReproduced(read.body, FINALIZERS, if items == [] then None else Some(Arr(items)));
    FinalizersPut(read.body, items);
  }

  lemma FinalizersPut(doc: Json, items: seq<Json>)
    requires IsObject(doc)
    ensures Finalizers(PutFinalizers(doc, items)) == items
  {
  }

  // ---------------------------------------------------------------------------
  // The hash patch of a stale copy.
  // ---------------------------------------------------------------------------

  lemma AtMember(j: Json, path: seq<string>)
    requires |path| == 1
    ensures At(j, path) == if path[0] in Members(j) then Some(Members(j)[path[0]]) else None
  {
  }

  /** What a patch within a place does there. */
  lemma {:induction false} AfterAtPlace(target: Json, p: Json, path: seq<string>)
    requires Within(p, path) && path != []
    ensures At(p, path).None? ==> At(Apply(target, p), path) == At(target, path)
    ensures At(p, path).Some? && At(p, path).value.Obj? ==>
              At(Apply(target, p), path) == Some(Apply(ValueAt(target, path), At(p, path).value))
    decreases path
  {
    var k := path[0];
    if k in p.members {
      if |path| == 1 {
        AtMember(target, path);
        AtMember(p, path);
        AtMember(Apply(target, p), path);
      } else {
        AfterAtPlace(Get(target, k), p.members[k], path[1..]);
      }
    }
  }

  /** What the patch of a changed copy holds at the place of the change. */
  lemma {:induction false} DiffAtPlace(a: Json, path: seq<string>, v: Json)
    requires Reaches(a, path) && v.Obj? && (At(a, path).Some? ==> At(a, path).value.Obj?)
    ensures var there := At(Diff(a, Put(a, path, Some(v))), path);
            if At(a, path) == Some(v) then there == None
            else if At(a, path).Some? then there == Some(Diff(At(a, path).value, v))
            else there == Some(v)
    decreases path
  {
    var k := path[0];
    if |path| == 1 {
      AtMember(a, path);
      AtMember(Diff(a, Put(a, path, Some(v))), path);
      if k in a.members {
        EmptyIffUnchanged(a.members[k], v);
      }
    } else {
      DiffAtPlace(a.members[k], path[1..], v);
      EmptyIffUnchanged(a.members[k], Put(a.members[k], path[1..], Some(v)));
    }
  }

  /** The change of some members, as a patch on any other object. */
  lemma MembersChanged(target: Json, a: Json, b: Json, k: string)
    requires a.Obj? && b.Obj? && (k in b.members ==> b.members[k].Str?) && (k in a.members ==> k in b.members)
    ensures var after := Members(Apply(target, Diff(a, b)));
            if k in b.members && Get(a, k) != b.members[k] then k in after && after[k] == b.members[k]
            else (k in after <==> k in Members(target)) && (k in after ==> after[k] == Members(target)[k])
  {
  }

  /** A patch that changes the members of the object at a place, there on any other document. */
  lemma PatchAtPlace(target: Json, a: Json, path: seq<string>, v: Json)
    requires Reaches(a, path) && v.Obj? && (At(a, path).Some? ==> At(a, path).value.Obj?)
    ensures var after := ValueAt(Apply(target, Diff(a, Put(a, path, Some(v)))), path);
            if At(a, path) == Some(v) then after == ValueAt(target, path)
            else if At(a, path).Some? then after == Apply(ValueAt(target, path), Diff(At(a, path).value, v))
            else after == Apply(ValueAt(target, path), v)
  {
    assert path != [] && a.Obj?;
    hide Diff, Apply, At, Put, Within, Reaches;
    DiffWithin(a, path, Some(v));
    DiffAtPlace(a, path, v);
    AfterAtPlace(target, Diff(a, Put(a, path, Some(v))), path);
  }

  lemma MembersAtPlace(target: Json, a: Json, path: seq<string>, v: Json, k: string)
    requires Reaches(a, path) && v.Obj? && (At(a, path).Some? ==> At(a, path).value.Obj?)
    requires k in v.members ==> v.members[k].Str?
    requires k in Members(ValueAt(a, path)) ==> k in v.members
    ensures var after, there := Members(ValueAt(Apply(target, Diff(a, Put(a, path, Some(v)))), path)),
        Members(ValueAt(target, path));
            if k in v.members && Get(ValueAt(a, path), k) != v.members[k] then k in after && after[k] == v.members[k]
            else (k in after <==> k in there) && (k in after ==> after[k] == there[k])
  {
    hide Diff, Apply, At, Put, Reaches;
    PatchAtPlace(target, a, path, v);
    if At(a, path).Some? {
      MembersChanged(ValueAt(target, path), At(a, path).value, v, k);
    } else {
      WholePatch(ValueAt(target, path), v.members, k);
    }
  }

  /** The hash patch on any document: where the copy had another hash or version, the new one is
      set; every other annotation is kept, also one that the copy did not have. */
  lemma HashPatchOnAny(copy: Json, hash: string, target: Json, k: string)
    requires IsObject(copy) && (At(copy, ANNOTATIONS).Some? ==> At(copy, ANNOTATIONS).value.Obj?)
    requires k in Stamped(copy, hash) ==> Stamped(copy, hash)[k].Str?
    ensures var goal := Stamped(copy, hash);
            var after, there := Annotations(Apply(target, Hash(copy, hash).Patch())), Annotations(target);
            if k in goal && Get(Obj(Annotations(copy)), k) != goal[k] then k in after && after[k] == goal[k]
            else (k in after <==> k in there) && (k in after ==> after[k] == there[k])
  {
    assert Reaches(copy, ANNOTATIONS);
    hide Diff, Apply, At, Put, Reaches;
    MembersAtPlace(target, copy, ANNOTATIONS, Obj(Stamped(copy, hash)), k);
  }

  /** Members without a copy to compare them with are all set. */
  lemma WholePatch(target: Json, goal: map<string, Json>, k: string)
    requires k in goal ==> goal[k].Str?
    ensures var after := Members(Apply(target, Obj(goal)));
            if k in goal then k in after && after[k] == goal[k]
            else (k in after <==> k in Members(target)) && (k in after ==> after[k] == Members(target)[k])
  {
  }

  /** In particular the two annotations of the provider. */
  lemma HashPatchStamps(copy: Json, hash: string, target: Json, k: string)
    requires IsObject(copy) && (At(copy, ANNOTATIONS).Some? ==> At(copy, ANNOTATIONS).value.Obj?)
    requires forall v :: v in Annotations(copy) ==> Annotations(copy)[v].Str?
    ensures var own := map["karpenter.vsphere.com/vspherenodeclass-hash" := Str(hash),
                           "karpenter.vsphere.com/vspherenodeclass-hash-version" := Str("v1")];
            var doc := Apply(target, Hash(copy, hash).Patch());
            var after := ValueAt(doc, ["metadata", "annotations"]);
            var there := ValueAt(target, ["metadata", "annotations"]);
            if k in own && Get(Obj(Annotations(copy)), k) != own[k] then k in Members(after) && Get(after, k) == own[k]
            else (k in Members(after) <==> k in Members(there)) && Get(after, k) == Get(there, k)
  {
    Drift.KeysDiffer();
    HashPatchOnAny(copy, hash, target, k);
  }

  // ---------------------------------------------------------------------------
  // The other writers' patches.
  // ---------------------------------------------------------------------------

  lemma {:induction false} AtPut(a: Json, path: seq<string>, v: Option<Json>)
    requires Reaches(a, path)
    ensures At(Put(a, path, v), path) == v
    decreases path
  {
    if |path| == 1 {
      AtMember(Put(a, path, v), path);
    } else {
      AtPut(a.members[path[0]], path[1..], v);
    }
  }

  /** A value that is no object replaces what is at its place in any document, and a removed one
      is removed. */
  lemma {:induction false} LeafPatch(target: Json, a: Json, path: seq<string>, v: Option<Json>)
    requires Reaches(a, path) && At(a, path) != v && (v.Some? ==> !v.value.Obj? && !v.value.Null?)
    ensures At(Apply(target, Diff(a, Put(a, path, v))), path) == v
    decreases path
  {
    var b := Put(a, path, v);
    AtPut(a, path, v);
    if |path| == 1 {
      AtMember(a, path);
      AtMember(Apply(target, Diff(a, b)), path);
    } else {
      var k := path[0];
      LeafPatch(Get(target, k), a.members[k], path[1..], v);
      EmptyIffUnchanged(a.members[k], b.members[k]);
      assert Diff(a, b).members[k] == Diff(a.members[k], b.members[k]);
    }
  }

  /** Adding the finalizer makes the list of any document that of the copy with it at the end. */
  lemma AddPatchOnAny(copy: Json, target: Json)
    requires IsObject(copy)
    ensures At(Apply(target, AddFinalizer(copy).Patch()), ["metadata", "finalizers"]) ==
            Some(Arr(Finalizers(copy) + [Str("karpenter.vsphere.com/termination")]))
  {
    var items := Finalizers(copy) + [Str("karpenter.vsphere.com/termination")];
    assert Reaches(copy, FINALIZERS);
    assert |items| == |Finalizers(copy)| + 1;
    LeafPatch(target, copy, FINALIZERS, Some(Arr(items)));
  }

  /** Removing it from a copy that has it makes the list of any document that of the copy without it. */
  lemma RemovePatchOnAny(copy: Json, target: Json)
    requires IsObject(copy) && Str("karpenter.vsphere.com/termination") in Finalizers(copy)
    ensures var left := Without(Finalizers(copy), Str("karpenter.vsphere.com/termination"));
            At(Apply(target, RemoveFinalizer(copy).Patch()), ["metadata", "finalizers"]) ==
            if left == [] then None else Some(Arr(left))
  {
    var left := Without(Finalizers(copy), Str("karpenter.vsphere.com/termination"));
    assert Reaches(copy, FINALIZERS);
    assert Str("karpenter.vsphere.com/termination") !in left;
    LeafPatch(target, copy, FINALIZERS, if left == [] then None else Some(Arr(left)));
  }

  lemma WithoutHead(x: Json, b: seq<Json>, item: Json)
    ensures Without([x] + b, item) == (if x == item then [] else [x]) + Without(b, item)
  {
    assert ([x] + b)[1..] == b;
  }

  /** What is left of a list keeps its order and its repetitions. */
  lemma {:induction false} WithoutConcat(a: seq<Json>, b: seq<Json>, item: Json)
    ensures Without(a + b, item) == Without(a, item) + Without(b, item)
    ensures Without([item], item) == []
  {
    if a == [] {
      assert a + b == b;
    } else {
      var x, rest := a[0], a[1..];
      WithoutConcat(rest, b, item);
      WithoutHead(x, rest, item);
      WithoutHead(x, rest + b, item);
      hide Without;
      assert a == [x] + rest && a + b == [x] + (rest + b);
    }
    WithoutHead(item, [], item);
    assert [item] + [] == [item];
  }

  /** The status patch puts the status of the changed copy where the server keeps it, if the
      document is still the copy and the status has no nulls. */
  lemma StatusPatchPuts(copy: Json, status: Json)
    requires IsObject(copy) && NullFree(status)
    ensures var after := Apply(copy, Status(copy, status).Patch());
            after == Obj(copy.members["status" := status])
  {
    assert Reaches(copy, STATUS);
    PutIsReproduced(copy, STATUS, Some(status));
  }
}
