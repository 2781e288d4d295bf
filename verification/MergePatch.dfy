/** JSON merge patches (section 2 of RFC 7396): the patches that the controllers send, and when
    one of them can undo another. */
module MergePatch {
  datatype Json = Null | Bool(b: bool) | Num(n: int) | Str(s: string) | Arr(items: seq<Json>)
    | Obj(members: map<string, Json>)

  function Members(j: Json): map<string, Json> {
    if j.Obj? then j.members else map[]
  }

  function Get(j: Json, k: string): Json {
    if k in Members(j) then Members(j)[k] else Null
  }

  /** The patched target. */
  function Apply(target: Json, patch: Json): Json
    decreases patch
  {
    if !patch.Obj? then patch
    else
      var base := Members(target);
      Obj(map k | k in base.Keys + patch.members.Keys && !(k in patch.members && patch.members[k].Null?) ::
            if k in patch.members then Apply(Get(target, k), patch.members[k]) else base[k])
  }

  /** The patch that is sent for a copy `a` changed into `b`. */
  function Diff(a: Json, b: Json): (d: Json)
    requires a.Obj? && b.Obj?
    ensures d.Obj?
    decreases a
  {
    Obj(map k | k in a.members.Keys + b.members.Keys
                && (k !in a.members || k !in b.members ||
                    if a.members[k].Obj? && b.members[k].Obj? then Diff(a.members[k], b.members[k]).members != map[]
                    else a.members[k] != b.members[k]) ::
          if k !in b.members then Null
          else if k in a.members && a.members[k].Obj? && b.members[k].Obj? then Diff(a.members[k], b.members[k])
          else b.members[k])
  }

  // ---------------------------------------------------------------------------
  // A patch does what it was made for.
  // ---------------------------------------------------------------------------

  /** No null occurs in `j` outside arrays. */
  predicate NullFree(j: Json) {
    !j.Null? && (j.Obj? ==> forall k :: k in j.members ==> NullFree(j.members[k]))
  }

  /** Whatever of `b` is not in `a` contains no null, which a patch would take for a removal. */
  predicate NoNewNull(a: Json, b: Json)
    requires a.Obj? && b.Obj?
    decreases a
  {
    forall k :: k in b.members ==>
      if k in a.members && a.members[k].Obj? && b.members[k].Obj? then NoNewNull(a.members[k], b.members[k])
      else (k in a.members && a.members[k] == b.members[k]) || NullFree(b.members[k])
  }

  lemma {:induction false} FreshIffNullFree(target: Json, v: Json)
    requires !target.Obj? && !v.Null?
    ensures Apply(target, v) == v <==> NullFree(v)
    decreases v
  {
    if v.Obj? {
      var r := Apply(target, v);
      forall k | k in v.members && !v.members[k].Null?
        ensures r.members[k] == v.members[k] <==> NullFree(v.members[k])
      {
        FreshIffNullFree(Null, v.members[k]);
      }
      if NullFree(v) {
        assert forall k :: k in v.members ==> NullFree(v.members[k]) && !v.members[k].Null?;
        assert r.members == v.members;
      } else {
        var k :| k in v.members && !NullFree(v.members[k]);
        assert v.members[k].Null? ==> k !in r.members;
      }
    }
  }

  /** An empty patch is sent exactly when nothing changed. */
  lemma {:induction false} EmptyIffUnchanged(a: Json, b: Json)
    requires a.Obj? && b.Obj?
    ensures Diff(a, b).members == map[] <==> a == b
    decreases a
  {
    var d := Diff(a, b).members;
    forall k | k in a.members && k in b.members ensures k in d <==> a.members[k] != b.members[k] {
      if a.members[k].Obj? && b.members[k].Obj? {
        EmptyIffUnchanged(a.members[k], b.members[k]);
      }
    }
    if a == b {
      assert forall k :: k !in d;
    }
    if d == map[] {
      assert forall k :: k in a.members.Keys + b.members.Keys ==> k !in d;
      assert a.members == b.members;
    }
  }

  /** Applied to the copy it was made from, a patch makes the changed copy of it, exactly when
      the change brings in no null. */
  lemma {:induction false} PatchReproducesIff(a: Json, b: Json)
    requires a.Obj? && b.Obj?
    ensures Apply(a, Diff(a, b)) == b <==> NoNewNull(a, b)
    decreases a
  {
    var r := Apply(a, Diff(a, b)).members;
    forall k | k in b.members ensures k in r && r[k] == b.members[k] <==> NoNewNullAt(a, b, k) {
      ReproducesAt(a, b, k);
    }
    assert forall k :: k in r ==> k in b.members;
    if NoNewNull(a, b) {
      assert forall k :: k in b.members ==> NoNewNullAt(a, b, k);
      assert r == b.members;
    } else {
      var k :| k in b.members && !NoNewNullAt(a, b, k);
    }
  }

  ghost predicate NoNewNullAt(a: Json, b: Json, k: string)
    requires a.Obj? && b.Obj? && k in b.members
  {
    if k in a.members && a.members[k].Obj? && b.members[k].Obj? then NoNewNull(a.members[k], b.members[k])
    else (k in a.members && a.members[k] == b.members[k]) || NullFree(b.members[k])
  }

  lemma {:induction false} ReproducesAt(a: Json, b: Json, k: string)
    requires a.Obj? && b.Obj? && k in b.members
    ensures var r := Apply(a, Diff(a, b)).members;
            k in r && r[k] == b.members[k] <==> NoNewNullAt(a, b, k)
    decreases a, 0
  {
    var v := b.members[k];
    if k in a.members && a.members[k].Obj? && v.Obj? {
      PatchReproducesIff(a.members[k], v);
      EmptyIffUnchanged(a.members[k], v);
      EmptyPatch(a.members[k]);
    } else if !v.Null? && !Get(a, k).Obj? {
      FreshIffNullFree(Get(a, k), v);
    }
  }

  lemma EmptyPatch(target: Json)
    requires target.Obj?
    ensures Apply(target, Obj(map[])) == target
  {
  }

  // ---------------------------------------------------------------------------
  // When one patch undoes another.
  // ---------------------------------------------------------------------------

  /** The patch `p` has been made and not undone: making it again changes nothing. */
  predicate InForce(target: Json, p: Json) {
    Apply(target, p) == target
  }

  /** The patches write different things, or the same. */
  predicate Compatible(p: Json, q: Json)
    decreases p
  {
    if p.Obj? && q.Obj? then forall k :: k in p.members && k in q.members ==> Compatible(p.members[k], q.members[k])
    else p == q
  }

  lemma {:induction false} MadeIsInForce(target: Json, p: Json)
    ensures InForce(Apply(target, p), p)
    decreases p
  {
    if p.Obj? {
      var once := Apply(target, p);
      var twice := Apply(once, p);
      forall k | k in p.members && !p.members[k].Null? ensures twice.members[k] == once.members[k] {
        MadeIsInForce(Get(target, k), p.members[k]);
      }
      assert twice.members.Keys == once.members.Keys;
      assert twice.members == once.members;
    }
  }

  /** What it means for a patch to be in force, member by member. */
  ghost predicate InForceAt(target: Json, p: Json, k: string)
    requires p.Obj? && k in p.members
  {
    if p.members[k].Null? then k !in Members(target)
    else k in Members(target) && InForce(Members(target)[k], p.members[k])
  }

  lemma InForceByMember(target: Json, p: Json)
    requires p.Obj? && target.Obj?
    ensures InForce(target, p) <==> forall k :: k in p.members ==> InForceAt(target, p, k)
  {
  }

  /** After `p` and then `q`, the first is still in force exactly when the two are compatible,
      whatever they were applied to. */
  lemma {:induction false} StaysInForceIff(target: Json, p: Json, q: Json)
    ensures InForce(Apply(Apply(target, p), q), p) <==> Compatible(p, q)
    decreases p
  {
    if p.Obj? && q.Obj? {
      var u := Apply(Apply(target, p), q);
      InForceByMember(u, p);
      forall k | k in p.members
        ensures InForceAt(u, p, k) <==> k !in q.members || Compatible(p.members[k], q.members[k])
      {
        if k in q.members {
          StaysInForceIff(Get(target, k), p.members[k], q.members[k]);
        } else {
          MadeIsInForce(Get(target, k), p.members[k]);
        }
      }
    }
  }

  lemma {:induction false} CompatibleSymmetric(p: Json, q: Json)
    requires Compatible(p, q)
    ensures Compatible(q, p)
    decreases p
  {
    if p.Obj? && q.Obj? {
      forall k | k in p.members && k in q.members ensures Compatible(q.members[k], p.members[k]) {
        CompatibleSymmetric(p.members[k], q.members[k]);
      }
    }
  }

  lemma CommuteAt(target: Json, p: Json, q: Json, k: string)
    requires p.Obj? && q.Obj?
    requires k in p.members && k in q.members ==>
               && (p.members[k].Null? <==> q.members[k].Null?)
               && Apply(Apply(Get(target, k), p.members[k]), q.members[k])
                  == Apply(Apply(Get(target, k), q.members[k]), p.members[k])
    ensures var pq, qp := Apply(Apply(target, p), q).members, Apply(Apply(target, q), p).members;
            (k in pq <==> k in qp) && (k in pq ==> pq[k] == qp[k])
  {
  }

  lemma {:induction false} CompatibleCommute(target: Json, p: Json, q: Json)
    requires Compatible(p, q)
    ensures Apply(Apply(target, p), q) == Apply(Apply(target, q), p)
    decreases p
  {
    if p.Obj? && q.Obj? {
      var pq, qp := Apply(Apply(target, p), q), Apply(Apply(target, q), p);
      forall k ensures (k in pq.members <==> k in qp.members) && (k in pq.members ==> pq.members[k] == qp.members[k]) {
        if k in p.members && k in q.members {
          CompatibleCommute(Get(target, k), p.members[k], q.members[k]);
        }
        CommuteAt(target, p, q, k);
      }
      hide Apply;
      assert pq.members == qp.members;
    }
  }

  /** The order of two patches does not matter exactly when they are compatible. */
  lemma CommuteIff(target: Json, p: Json, q: Json)
    ensures Apply(Apply(target, p), q) == Apply(Apply(target, q), p) <==> Compatible(p, q)
  {
    if Compatible(p, q) {
      CompatibleCommute(target, p, q);
    } else {
      MadeIsInForce(Apply(target, q), p);
      StaysInForceIff(target, p, q);
    }
  }
}
