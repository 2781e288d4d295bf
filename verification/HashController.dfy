/** The hash controller's `Reconcile` as the loop it is, and what a series of passes over an
    otherwise quiet cluster converges to. */
module HashController {
  import opened Prelude
  import opened Drift
  import opened HashMigration

  /** What happens to one pass: whether its list fails, the order of the list, the claims that others
      delete after it, one outcome per claim patch and one for the class. */
  datatype Pass = Pass(
    listFails: bool, order: seq<ClaimId>, gone: seq<ClaimId>, claimOutcomes: seq<Outcome>, classOutcome: Outcome)

  ghost predicate PassOver(p: Pass, claims: map<ClaimId, Claim>) {
    Lists(p.order, claims.Keys) && |p.claimOutcomes| == |p.order|
  }

  predicate Acknowledged(p: Pass) {
    !p.listFails && p.classOutcome.Applied? && forall o :: o in p.claimOutcomes ==> o.Applied?
  }

  /** A claim after its patch took effect. */
  function Migrate(hash: Spec -> string, spec: Spec, c: Claim): Claim {
    if HasVersion(c.annotations, CURRENT_VERSION) then c
    else c.(annotations := ModifiedClaim(hash, spec, c))
  }

  function Stamped(hash: Spec -> string, c: NodeClass): NodeClass {
    c.(annotations := ModifiedClass(hash, c))
  }

  /** The claim patch at position `k` goes out and is answered with an error other than that the
      claim is gone. */
  predicate Fails(p: Pass, claims: map<ClaimId, Claim>, k: nat)
    requires k < |p.order| && k < |p.claimOutcomes| && p.order[k] in claims
  {
    && !HasVersion(claims[p.order[k]].annotations, CURRENT_VERSION)
    && (p.claimOutcomes[k].Rejected? || (p.claimOutcomes[k].AppliedUnacknowledged? && p.order[k] !in p.gone))
  }

  /** `after` is `before` with the patches of the first `n` listed claims decided. */
  ghost predicate LoopEffect(
    hash: Spec -> string, spec: Spec, p: Pass, before: map<ClaimId, Claim>, after: map<ClaimId, Claim>, n: nat)
    requires PassOver(p, before) && n <= |p.order|
  {
    && after.Keys == before.Keys - Elements(p.gone)
    && forall k :: 0 <= k < |p.order| && p.order[k] in after ==>
         var c := before[p.order[k]];
         after[p.order[k]] == if k < n && !p.claimOutcomes[k].Rejected? then Migrate(hash, spec, c) else c
  }

  lemma LoopEffectBegins(hash: Spec -> string, spec: Spec, p: Pass, before: map<ClaimId, Claim>)
    requires PassOver(p, before)
    ensures LoopEffect(hash, spec, p, before, before - Elements(p.gone), 0)
  {
  }

  lemma LoopEffectGrows(
    hash: Spec -> string, spec: Spec, p: Pass, before: map<ClaimId, Claim>, mid: map<ClaimId, Claim>, n: nat)
    requires PassOver(p, before) && n < |p.order| && LoopEffect(hash, spec, p, before, mid, n)
    ensures var c := before[p.order[n]];
            && (p.order[n] in mid <==> p.order[n] !in p.gone) && (p.order[n] in mid ==> mid[p.order[n]] == c)
            && LoopEffect(hash, spec, p, before,
                          if p.claimOutcomes[n].Rejected? || p.order[n] !in mid then mid
                          else mid[p.order[n] := Migrate(hash, spec, c)], n + 1)
  {
  }

  ghost predicate LoopFails(p: Pass, claims: map<ClaimId, Claim>, n: nat)
    requires PassOver(p, claims) && n <= |p.order|
  {
    exists k :: 0 <= k < n && Fails(p, claims, k)
  }

  ghost predicate PassFails(hash: Spec -> string, p: Pass, nodeClass: NodeClass, claims: map<ClaimId, Claim>)
    requires PassOver(p, claims)
  {
    || (!HasVersion(nodeClass.annotations, CURRENT_VERSION) && (p.listFails || LoopFails(p, claims, |p.order|)))
    || (nodeClass.annotations != ModifiedClass(hash, nodeClass) && !p.classOutcome.Applied?)
  }

  /** The whole effect of one pass on the cluster, and whether it ends in an error. */
  ghost predicate PassEffect(
    hash: Spec -> string, p: Pass,
    nodeClass: NodeClass, claims: map<ClaimId, Claim>,
    nodeClass': NodeClass, claims': map<ClaimId, Claim>, failed: bool)
    requires PassOver(p, claims)
  {
    var migrates := !HasVersion(nodeClass.annotations, CURRENT_VERSION);
    var claimsFail := migrates && (p.listFails || LoopFails(p, claims, |p.order|));
    && (if migrates && !p.listFails then LoopEffect(hash, nodeClass.spec, p, claims, claims', |p.order|)
        else claims' == claims - Elements(p.gone))
    && nodeClass' == (if claimsFail || p.classOutcome.Rejected? then nodeClass else Stamped(hash, nodeClass))
    && (failed <==> PassFails(hash, p, nodeClass, claims))
  }

  /** How the API server answers a patch. */
  datatype Reply = Ok | NotFound | Error

  /** The API server's side: the objects, and merge patches applied to them. */
  class ApiServer {
    var nodeClass: NodeClass
    var claims: map<ClaimId, Claim>

    constructor (nodeClass: NodeClass, claims: map<ClaimId, Claim>)
      ensures this.nodeClass == nodeClass && this.claims == claims
    {
      this.nodeClass := nodeClass;
      this.claims := claims;
    }

    /** Others delete claims. */
    method DeleteClaims(ids: set<ClaimId>)
      modifies this`claims
      ensures claims == old(claims) - ids
    {
      claims := claims - ids;
    }

    /** Merge-patches the annotations of a claim, if it still exists. */
    method PatchClaim(id: ClaimId, diff: Annotations, outcome: Outcome) returns (reply: Reply)
      modifies this`claims
      ensures reply.Error? <==> outcome.Rejected? || (outcome.AppliedUnacknowledged? && id in old(claims))
      ensures reply.NotFound? <==> !outcome.Rejected? && id !in old(claims)
      ensures claims == if outcome.Rejected? || id !in old(claims) then old(claims)
                        else old(claims)[id := old(claims)[id].(annotations := old(claims)[id].annotations + diff)]
    {
      if outcome.Rejected? {
        return Reply.Error;
      }
      if id !in claims {
        return Reply.NotFound;
      }
      claims := claims[id := claims[id].(annotations := claims[id].annotations + diff)];
      reply := if outcome.Applied? then Ok else Reply.Error;
    }

    method PatchClass(diff: Annotations, outcome: Outcome) returns (ok: bool)
      modifies this`nodeClass
      ensures ok <==> outcome.Applied?
      ensures nodeClass == if outcome.Rejected? then old(nodeClass)
                           else old(nodeClass).(annotations := old(nodeClass).annotations + diff)
    {
      if !outcome.Rejected? {
        nodeClass := nodeClass.(annotations := nodeClass.annotations + diff);
      }
      ok := outcome.Applied?;
    }
  }

  lemma DiffCompletes(stored: Annotations, modified: Annotations)
    requires stored.Keys <= modified.Keys
    ensures stored + MergeDiff(stored, modified) == modified
    ensures MergeDiff(stored, modified) == map[] <==> stored == modified
  {
  }

  class Controller {
    const hash: Spec -> string

    constructor (hash: Spec -> string)
      ensures this.hash == hash
    {
      this.hash := hash;
    }

    /** Lists the claims and stamps them in list order, collecting errors in one slot per claim; a
        claim that is gone by its turn is no error. */
    method UpdateNodeClaimHash(api: ApiServer, nodeClass: NodeClass, p: Pass) returns (failed: bool)
      requires PassOver(p, api.claims)
      modifies api`claims
      ensures if p.listFails then failed && api.claims == old(api.claims) - Elements(p.gone)
              else LoopEffect(hash, nodeClass.spec, p, old(api.claims), api.claims, |p.order|)
                   && (failed <==> LoopFails(p, old(api.claims), |p.order|))
    {
      hide LoopEffect;
      var listed := api.claims;
      api.DeleteClaims(Elements(p.gone));
      if p.listFails {
        return true;
      }
      LoopEffectBegins(hash, nodeClass.spec, p, listed);
      var errs := new bool[|p.order|](_ => false);
      var i := 0;
      while i < |p.order|
        invariant 0 <= i <= |p.order|
        invariant LoopEffect(hash, nodeClass.spec, p, listed, api.claims, i)
        invariant forall k :: 0 <= k < |p.order| ==> (errs[k] <==> k < i && Fails(p, listed, k))
      {
        var id := p.order[i];
        LoopEffectGrows(hash, nodeClass.spec, p, listed, api.claims, i);
        var c := listed[id];
        if !HasVersion(c.annotations, CURRENT_VERSION) {
          var diff := MergeDiff(c.annotations, ModifiedClaim(hash, nodeClass.spec, c));
          DiffCompletes(c.annotations, ModifiedClaim(hash, nodeClass.spec, c));
          var reply := api.PatchClaim(id, diff, p.claimOutcomes[i]);
          errs[i] := reply.Error?;
        } else {
          assert id in api.claims ==> api.claims[id := c] == api.claims;
        }
        i := i + 1;
      }
      failed := exists k :: 0 <= k < |p.order| && errs[k];
    }

    /** Claims first; the class only when none of them failed; nothing when nothing differs. */
    method Reconcile(api: ApiServer, p: Pass) returns (failed: bool)
      requires PassOver(p, api.claims)
      modifies api
      ensures PassEffect(hash, p, old(api.nodeClass), old(api.claims), api.nodeClass, api.claims, failed)
    {
      var stored := api.nodeClass;
      if !HasVersion(stored.annotations, CURRENT_VERSION) {
        failed := UpdateNodeClaimHash(api, stored, p);
        if failed { return; }
      } else {
        api.DeleteClaims(Elements(p.gone));
      }
      var modified := ModifiedClass(hash, stored);
      DiffCompletes(stored.annotations, modified);
      failed := false;
      if stored.annotations != modified {
        var ok := api.PatchClass(MergeDiff(stored.annotations, modified), p.classOutcome);
        failed := !ok;
      }
    }
  }

  // ---------------------------------------------------------------------------
  // The loop above is a run of the transition system.
  // ---------------------------------------------------------------------------

  function PatchActions(outcomes: seq<Outcome>, n: nat): seq<Action>
    requires n <= |outcomes|
  {
    if n == 0 then [] else PatchActions(outcomes, n - 1) + [PatchClaim(outcomes[n - 1])]
  }

  function DeleteActions(ids: seq<ClaimId>): seq<Action> {
    if ids == [] then [] else DeleteActions(ids[..|ids| - 1]) + [DeleteClaim(ids[|ids| - 1])]
  }

  /** The list fails where it is made: with a class that is not versioned. */
  predicate Aborts(p: Pass, c: NodeClass) {
    p.listFails && !HasVersion(c.annotations, CURRENT_VERSION)
  }

  /** The actions of a pass that finds the class `c`. */
  function PassActions(p: Pass, c: NodeClass): seq<Action> {
    if Aborts(p, c) then [Begin, Abort] + DeleteActions(p.gone)
    else
      [Begin, ListClaims(p.order)] + DeleteActions(p.gone) + PatchActions(p.claimOutcomes, |p.claimOutcomes|)
      + [EndLoop, PatchClass(p.classOutcome)]
  }

  lemma {:induction false} DeletesRun(hash: Spec -> string, s: State, ids: seq<ClaimId>)
    ensures Run(hash, s, DeleteActions(ids)) == s.(claims := s.claims - Elements(ids))
    decreases |ids|
  {
    if ids == [] {
      assert s.claims - Elements(ids) == s.claims;
    } else {
      var before, last := ids[..|ids| - 1], ids[|ids| - 1];
      DeletesRun(hash, s, before);
      assert DeleteActions(ids)[..|DeleteActions(ids)| - 1] == DeleteActions(before);
      hide Next;
      DeletesOne(hash, s.(claims := s.claims - Elements(before)), last);
      ElementsEndWith(ids);
      assert s.claims - Elements(ids) == (s.claims - Elements(before)) - {last};
    }
  }

  lemma DeletesOne(hash: Spec -> string, s: State, id: ClaimId)
    ensures Next(hash, s, DeleteClaim(id)) == s.(claims := s.claims - {id})
  {
  }

  lemma ElementsEndWith(ids: seq<ClaimId>)
    requires ids != []
    ensures Elements(ids) == Elements(ids[..|ids| - 1]) + {ids[|ids| - 1]}
  {
    assert ids == ids[..|ids| - 1] + [ids[|ids| - 1]];
  }

  /** `s` after its list and the first `n` patches, nothing else having happened. */
  ghost predicate InLoop(hash: Spec -> string, p: Pass, s0: State, s: State, n: nat)
    requires PassOver(p, s0.claims) && n <= |p.order|
  {
    && s.nodeClass == s0.nodeClass
    && s.pc.Looping?
    && s.pc.stored == s0.nodeClass
    && |s.pc.items| == |p.order|
    && (forall k :: 0 <= k < |p.order| ==> s.pc.items[k] == Item(p.order[k], s0.claims[p.order[k]]))
    && s.pc.next == n
    && (s.pc.failed <==> LoopFails(p, s0.claims, n))
    && LoopEffect(hash, s0.nodeClass.spec, p, s0.claims, s.claims, n)
  }

  lemma LoopStep(hash: Spec -> string, p: Pass, s0: State, s: State, n: nat)
    requires PassOver(p, s0.claims) && n < |p.order| && InLoop(hash, p, s0, s, n)
    ensures InLoop(hash, p, s0, Next(hash, s, PatchClaim(p.claimOutcomes[n])), n + 1)
  {
    hide LoopEffect;
    var c := s0.claims[p.order[n]];
    DiffCompletes(c.annotations, ModifiedClaim(hash, s0.nodeClass.spec, c));
    LoopEffectGrows(hash, s0.nodeClass.spec, p, s0.claims, s.claims, n);
    assert s.pc.items[n] == Item(p.order[n], c);
    assert LoopFails(p, s0.claims, n + 1) <==> LoopFails(p, s0.claims, n) || Fails(p, s0.claims, n);
    assert p.order[n] in s.claims ==> s.claims[p.order[n] := c] == s.claims;
  }

  lemma RunOneMore(hash: Spec -> string, s: State, outcomes: seq<Outcome>, n: nat)
    requires 0 < n <= |outcomes|
    ensures Run(hash, s, PatchActions(outcomes, n)) ==
            Next(hash, Run(hash, s, PatchActions(outcomes, n - 1)), PatchClaim(outcomes[n - 1]))
  {
  }

  lemma {:induction false} LoopRun(hash: Spec -> string, p: Pass, s0: State, s: State, n: nat)
    requires PassOver(p, s0.claims) && n <= |p.order| && InLoop(hash, p, s0, s, 0)
    ensures InLoop(hash, p, s0, Run(hash, s, PatchActions(p.claimOutcomes, n)), n)
  {
    hide InLoop, LoopFails, Next;
    if n > 0 {
      var s' := Run(hash, s, PatchActions(p.claimOutcomes, n - 1));
      LoopRun(hash, p, s0, s, n - 1);
      LoopStep(hash, p, s0, s', n - 1);
      RunOneMore(hash, s, p.claimOutcomes, n);
    }
  }

  lemma {:induction false} PatchesOutsideLoop(hash: Spec -> string, s: State, outcomes: seq<Outcome>, n: nat)
    requires !s.pc.Looping? && n <= |outcomes|
    ensures Run(hash, s, PatchActions(outcomes, n)) == s
  {
    if n > 0 {
      PatchesOutsideLoop(hash, s, outcomes, n - 1);
      RunOneMore(hash, s, outcomes, n);
    }
  }

  lemma RunTwo(hash: Spec -> string, s: State, a: Action, b: Action)
    ensures Run(hash, s, [a, b]) == Next(hash, Next(hash, s, a), b)
  {
    assert [a, b][..1] == [a] && [a][..0] == [];
    assert Run(hash, s, [a]) == Next(hash, Run(hash, s, []), a);
  }

  /** The end of a pass: the class is patched unless a claim failed. */
  lemma FinishPass(hash: Spec -> string, s: State, p: Pass)
    requires (s.pc.Looping? && s.pc.next == |s.pc.items|) || s.pc.Finishing?
    requires s.pc.stored == s.nodeClass
    ensures var s' := Run(hash, s, [EndLoop, PatchClass(p.classOutcome)]);
            && s'.pc.Idle? && s'.claims == s.claims
            && s'.nodeClass == if (s.pc.Looping? && s.pc.failed) || p.classOutcome.Rejected? then s.nodeClass
                               else Stamped(hash, s.nodeClass)
  {
    RunTwo(hash, s, EndLoop, PatchClass(p.classOutcome));
    DiffCompletes(s.nodeClass.annotations, ModifiedClass(hash, s.nodeClass));
  }

  lemma BeginPass(hash: Spec -> string, s: State, p: Pass)
    requires s.pc.Idle? && PassOver(p, s.claims)
    ensures var s' := Run(hash, s, [Begin, ListClaims(p.order)] + DeleteActions(p.gone));
            && s'.nodeClass == s.nodeClass && s'.log.patches == s.log.patches
            && if HasVersion(s.nodeClass.annotations, CURRENT_VERSION)
               then s'.pc == Finishing(s.nodeClass) && s'.claims == s.claims - Elements(p.gone)
               else InLoop(hash, p, s, s', 0)
  {
    var listed := Run(hash, s, [Begin, ListClaims(p.order)]);
    RunTwo(hash, s, Begin, ListClaims(p.order));
    RunConcat(hash, s, [Begin, ListClaims(p.order)], DeleteActions(p.gone));
    DeletesRun(hash, listed, p.gone);
    LoopEffectBegins(hash, s.nodeClass.spec, p, s.claims);
  }

  lemma MiddleOfPass(hash: Spec -> string, s: State, p: Pass, begun: State)
    requires s.pc.Idle? && PassOver(p, s.claims)
    requires begun == Run(hash, s, [Begin, ListClaims(p.order)] + DeleteActions(p.gone))
    ensures var looped := Run(hash, begun, PatchActions(p.claimOutcomes, |p.claimOutcomes|));
            if HasVersion(s.nodeClass.annotations, CURRENT_VERSION) then looped == begun
            else InLoop(hash, p, s, looped, |p.order|)
  {
    hide InLoop, LoopFails, Next;
    BeginPass(hash, s, p);
    if HasVersion(s.nodeClass.annotations, CURRENT_VERSION) {
      PatchesOutsideLoop(hash, begun, p.claimOutcomes, |p.claimOutcomes|);
    } else {
      LoopRun(hash, p, s, begun, |p.order|);
    }
  }

  lemma RunOfPass(hash: Spec -> string, s: State, p: Pass)
    requires !Aborts(p, s.nodeClass)
    ensures var begun := Run(hash, s, [Begin, ListClaims(p.order)] + DeleteActions(p.gone));
            var looped := Run(hash, begun, PatchActions(p.claimOutcomes, |p.claimOutcomes|));
            Run(hash, s, PassActions(p, s.nodeClass)) == Run(hash, looped, [EndLoop, PatchClass(p.classOutcome)])
  {
    hide Next;
    var first, patches := [Begin, ListClaims(p.order)] + DeleteActions(p.gone),
        PatchActions(p.claimOutcomes, |p.claimOutcomes|);
    RunConcat(hash, s, first, patches);
    RunConcat(hash, s, first + patches, [EndLoop, PatchClass(p.classOutcome)]);
  }

  /** A pass whose list fails changes nothing, but for the claims that others delete. */
  lemma AbortedPass(hash: Spec -> string, s: State, p: Pass)
    requires s.pc.Idle? && Aborts(p, s.nodeClass)
    ensures Run(hash, s, PassActions(p, s.nodeClass)) == s.(claims := s.claims - Elements(p.gone))
  {
    RunTwo(hash, s, Begin, Abort);
    RunConcat(hash, s, [Begin, Abort], DeleteActions(p.gone));
    DeletesRun(hash, s, p.gone);
  }

  /** Running the actions of a pass from a state at rest has the effect `Reconcile` promises
      and returns to rest: the controller is one of the runs the theorems quantify over. */
  lemma PassIsRun(hash: Spec -> string, s: State, p: Pass)
    requires s.pc.Idle? && PassOver(p, s.claims)
    ensures var s' := Run(hash, s, PassActions(p, s.nodeClass));
            && s'.pc.Idle?
            && PassEffect(hash, p, s.nodeClass, s.claims, s'.nodeClass, s'.claims,
                          PassFails(hash, p, s.nodeClass, s.claims))
  {
    hide Next, Run;
    if Aborts(p, s.nodeClass) {
      AbortedPass(hash, s, p);
    } else {
      var begun := Run(hash, s, [Begin, ListClaims(p.order)] + DeleteActions(p.gone));
      var looped := Run(hash, begun, PatchActions(p.claimOutcomes, |p.claimOutcomes|));
      RunOfPass(hash, s, p);
      BeginPass(hash, s, p);
      MiddleOfPass(hash, s, p, begun);
      FinishPass(hash, looped, p);
    }
  }

  // ---------------------------------------------------------------------------
  // Convergence. Passes fail in any way, and others do nothing but delete claims.
  // ---------------------------------------------------------------------------

  /** Any number of passes, one after the other, took the cluster from the first pair to the
      second. */
  ghost predicate Passes(
    hash: Spec -> string, ps: seq<Pass>,
    nodeClass: NodeClass, claims: map<ClaimId, Claim>, nodeClass': NodeClass, claims': map<ClaimId, Claim>)
    decreases |ps|
  {
    if ps == [] then nodeClass' == nodeClass && claims' == claims
    else exists c, m, failed ::
           && PassOver(ps[0], claims)
           && PassEffect(hash, ps[0], nodeClass, claims, c, m, failed)
           && Passes(hash, ps[1..], c, m, nodeClass', claims')
  }

  /** Where a pass without errors takes the cluster, as far as the claims still exist. */
  ghost predicate Converged(
    hash: Spec -> string,
    nodeClass: NodeClass, claims: map<ClaimId, Claim>, nodeClass': NodeClass, claims': map<ClaimId, Claim>)
  {
    && nodeClass' == Stamped(hash, nodeClass)
    && claims'.Keys <= claims.Keys
    && forall id :: id in claims' ==>
         claims'[id] == if HasVersion(nodeClass.annotations, CURRENT_VERSION) then claims[id]
                        else Migrate(hash, nodeClass.spec, claims[id])
  }

  lemma CleanPassConverges(
    hash: Spec -> string, p: Pass,
    c: NodeClass, m: map<ClaimId, Claim>, c': NodeClass, m': map<ClaimId, Claim>, failed: bool)
    requires PassOver(p, m) && Acknowledged(p) && PassEffect(hash, p, c, m, c', m', failed)
    ensures !failed && Converged(hash, c, m, c', m') && m'.Keys == m.Keys - Elements(p.gone)
  {
    forall k | 0 <= k < |p.order| ensures !Fails(p, m, k) {
      assert p.claimOutcomes[k] in p.claimOutcomes;
    }
    forall id | id in m'
      ensures m'[id] == if HasVersion(c.annotations, CURRENT_VERSION) then m[id] else Migrate(hash, c.spec, m[id])
    {
      var k :| 0 <= k < |p.order| && p.order[k] == id;
      assert p.claimOutcomes[k] in p.claimOutcomes;
    }
  }

  /** What a clean pass leaves: the version, the hash of the current spec except on claims that
      are drifted or already had the version, and every other annotation as it was. */
  lemma CleanPassStamps(
    hash: Spec -> string, p: Pass,
    c: NodeClass, m: map<ClaimId, Claim>, c': NodeClass, m': map<ClaimId, Claim>, failed: bool)
    requires PassOver(p, m) && Acknowledged(p) && PassEffect(hash, p, c, m, c', m', failed)
    ensures var key, versionKey := "karpenter.vsphere.com/vspherenodeclass-hash",
                "karpenter.vsphere.com/vspherenodeclass-hash-version";
            && c'.spec == c.spec && c'.annotations == c.annotations[key := hash(c.spec)][versionKey := "v1"]
            && forall id :: id in m' ==>
                 var claim, claim' := m[id], m'[id];
                 && claim'.drifted == claim.drifted
                 && claim'.annotations ==
                    if HasVersion(c.annotations, "v1") || HasVersion(claim.annotations, "v1") then claim.annotations
                    else if claim.drifted then claim.annotations[versionKey := "v1"]
                    else claim.annotations[versionKey := "v1"][key := hash(c.spec)]
  {
    CleanPassConverges(hash, p, c, m, c', m', failed);
  }

  lemma LoopEffectAt(hash: Spec -> string, spec: Spec, p: Pass, m: map<ClaimId, Claim>, m1: map<ClaimId, Claim>, k: nat)
    requires PassOver(p, m) && k < |p.order| && LoopEffect(hash, spec, p, m, m1, |p.order|) && p.order[k] in m1
    ensures Migrate(hash, spec, m1[p.order[k]]) == Migrate(hash, spec, m[p.order[k]])
    ensures !LoopFails(p, m, |p.order|) ==> m1[p.order[k]] == Migrate(hash, spec, m[p.order[k]])
  {
    KeysDiffer();
    assert !LoopFails(p, m, |p.order|) ==> !Fails(p, m, k);
  }

  /** A pass, failed or not, changes nothing about where a clean pass leads. */
  lemma {:induction false} PassKeepsTarget(
    hash: Spec -> string, p: Pass,
    c: NodeClass, m: map<ClaimId, Claim>, c1: NodeClass, m1: map<ClaimId, Claim>, failed: bool,
    c': NodeClass, m': map<ClaimId, Claim>)
    requires PassOver(p, m) && PassEffect(hash, p, c, m, c1, m1, failed) && Converged(hash, c1, m1, c', m')
    ensures Converged(hash, c, m, c', m')
  {
    KeysDiffer();
    assert ModifiedClass(hash, Stamped(hash, c)) == ModifiedClass(hash, c);
    if !HasVersion(c.annotations, CURRENT_VERSION) {
      forall id | id in m' ensures m'[id] == Migrate(hash, c.spec, m[id]) {
        if !p.listFails {
          var k :| 0 <= k < |p.order| && p.order[k] == id;
          LoopEffectAt(hash, c.spec, p, m, m1, k);
        }
      }
    }
  }

  /** Whatever the passes before it did, the first clean pass reaches the state that a single
      clean pass would have reached at once. */
  lemma {:induction false} RetriesConverge(
    hash: Spec -> string, ps: seq<Pass>, last: Pass,
    c: NodeClass, m: map<ClaimId, Claim>, c1: NodeClass, m1: map<ClaimId, Claim>,
    c': NodeClass, m': map<ClaimId, Claim>, failed: bool)
    requires Passes(hash, ps, c, m, c1, m1)
    requires PassOver(last, m1) && Acknowledged(last) && PassEffect(hash, last, c1, m1, c', m', failed)
    ensures Converged(hash, c, m, c', m')
    decreases |ps|
  {
    if ps == [] {
      CleanPassConverges(hash, last, c, m, c', m', failed);
    } else {
      var c2, m2, failed2 :|
        && PassOver(ps[0], m)
        && PassEffect(hash, ps[0], c, m, c2, m2, failed2)
        && Passes(hash, ps[1..], c2, m2, c1, m1);
      RetriesConverge(hash, ps[1..], last, c2, m2, c1, m1, c', m', failed);
      PassKeepsTarget(hash, ps[0], c, m, c2, m2, failed2, c', m');
    }
  }

  /** After a clean pass, the next one sends no patch at all, whatever would become of it. */
  lemma NothingLeftToPatch(hash: Spec -> string, s: State, s': State, p: Pass)
    requires Converged(hash, s.nodeClass, s.claims, s'.nodeClass, s'.claims)
    requires s'.pc.Idle? && PassOver(p, s'.claims)
    ensures var s'' := Run(hash, s', PassActions(p, s'.nodeClass));
            s''.nodeClass == s'.nodeClass && s''.claims == s'.claims - Elements(p.gone)
                && s''.log.patches == s'.log.patches
  {
    KeysDiffer();
    var begun := Run(hash, s', [Begin, ListClaims(p.order)] + DeleteActions(p.gone));
    BeginPass(hash, s', p);
    RunOfPass(hash, s', p);
    PatchesOutsideLoop(hash, begun, p.claimOutcomes, |p.claimOutcomes|);
    RunTwo(hash, begun, EndLoop, PatchClass(p.classOutcome));
    assert s'.nodeClass.annotations == ModifiedClass(hash, s'.nodeClass);
    DiffCompletes(s'.nodeClass.annotations, ModifiedClass(hash, s'.nodeClass));
  }
}
