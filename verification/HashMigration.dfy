/** The hash controller and the drift checks, as a transition system with one action per API
    call, so that failures, crashes, spec edits and claim churn fall between any two calls. */
module HashMigration {
  import opened Prelude
  import opened Drift

  /** A NodeClass spec; what it holds does not matter, only how it hashes. */
  type Spec(==, !new)
  type ClaimId = nat

  datatype Claim = Claim(annotations: Annotations, drifted: bool)
  datatype NodeClass = NodeClass(spec: Spec, annotations: Annotations)
  datatype Item = Item(id: ClaimId, claim: Claim)

  /** What became of a patch. A lost acknowledgement is an error to the controller although
      the server took the patch. */
  datatype Outcome = Applied | Rejected | AppliedUnacknowledged

  /** Where `Reconcile` stands. `stored` is the copy of the class it works from. */
  datatype Pc =
    | Idle
    | Listing(stored: NodeClass)
    | Looping(stored: NodeClass, items: seq<Item>, next: nat, failed: bool)
    | Finishing(stored: NodeClass)

  /** Bookkeeping no step depends on: which ids were ever used, which claims ever carried the
      Drifted condition, from which spec each claim and the class were stamped, which claims
      the last list returned, and how many patches were sent. */
  datatype History = History(
    used: set<ClaimId>,
    everDrifted: set<ClaimId>,
    stamps: map<ClaimId, Spec>,
    classStamp: Option<Spec>,
    listed: set<ClaimId>,
    patches: nat)

  datatype State = State(nodeClass: NodeClass, claims: map<ClaimId, Claim>, pc: Pc, log: History)

  datatype Action =
    | Begin
    | ListClaims(order: seq<ClaimId>)
    | PatchClaim(outcome: Outcome)
    | EndLoop
    | PatchClass(outcome: Outcome)
    | Abort
    | EditSpec(spec: Spec)
    | CreateClaim(id: ClaimId, annotations: Annotations, condition: bool)
    | DeleteClaim(id: ClaimId)
    | SetDrifted(id: ClaimId, value: bool)

  /** What a merge patch from `stored` to `modified` carries: the keys whose value differs. */
  function MergeDiff(stored: Annotations, modified: Annotations): Annotations {
    map k | k in modified && (k !in stored || stored[k] != modified[k]) :: modified[k]
  }

  function ModifiedClaim(hash: Spec -> string, spec: Spec, c: Claim): Annotations {
    var versioned := c.annotations[HASH_VERSION := CURRENT_VERSION];
    if c.drifted then versioned else versioned[HASH := hash(spec)]
  }

  function ModifiedClass(hash: Spec -> string, c: NodeClass): Annotations {
    c.annotations[HASH := hash(c.spec)][HASH_VERSION := CURRENT_VERSION]
  }

  function BeginPc(c: NodeClass): Pc {
    if HasVersion(c.annotations, CURRENT_VERSION) then Finishing(c) else Listing(c)
  }

  ghost function ListPc(stored: NodeClass, claims: map<ClaimId, Claim>, order: seq<ClaimId>): Pc
    requires forall id :: id in order ==> id in claims
  {
    Looping(stored, seq(|order|, i requires 0 <= i < |order| => Item(order[i], claims[order[i]])), 0, false)
  }

  /** One turn of the loop over the claims. A claim that is gone by now is not an error. */
  function PatchNext(hash: Spec -> string, s: State, outcome: Outcome): State
    requires s.pc.Looping? && s.pc.next < |s.pc.items|
  {
    var item := s.pc.items[s.pc.next];
    var done := s.pc.(next := s.pc.next + 1);
    if HasVersion(item.claim.annotations, CURRENT_VERSION) then
      s.(pc := done)
    else
      var log := s.log.(patches := s.log.patches + 1);
      if outcome.Rejected? then
        s.(pc := done.(failed := true), log := log)
      else if item.id !in s.claims then
        s.(pc := done, log := log)
      else
        var diff := MergeDiff(item.claim.annotations, ModifiedClaim(hash, s.pc.stored.spec, item.claim));
        var c := s.claims[item.id];
        State(
          s.nodeClass,
          s.claims[item.id := c.(annotations := c.annotations + diff)],
          done.(failed := s.pc.failed || outcome.AppliedUnacknowledged?),
          if item.claim.drifted then log else log.(stamps := log.stamps[item.id := s.pc.stored.spec]))
  }

  /** The patch of the class; nothing is sent when nothing differs. */
  function PatchClassNow(hash: Spec -> string, s: State, outcome: Outcome): State
    requires s.pc.Finishing?
  {
    var stored := s.pc.stored;
    var diff := MergeDiff(stored.annotations, ModifiedClass(hash, stored));
    var sent := s.log.(patches := s.log.patches + if diff == map[] then 0 else 1);
    if outcome.Rejected? && diff != map[] then
      s.(pc := Idle, log := sent)
    else
      s.(nodeClass := s.nodeClass.(annotations := s.nodeClass.annotations + diff),
         pc := Idle,
         log := sent.(classStamp := Some(stored.spec)))
  }

  /** An action that is not possible in `s` changes nothing. Claim ids are never reused, and a
      new claim carries no hash annotations (`instanceToNodeClaim` writes none). */
  ghost function Next(hash: Spec -> string, s: State, a: Action): State {
    match a
    case Begin =>
      if s.pc.Idle? then s.(pc := BeginPc(s.nodeClass)) else s
    case ListClaims(order) =>
      if s.pc.Listing? && Lists(order, s.claims.Keys)
      then s.(pc := ListPc(s.pc.stored, s.claims, order), log := s.log.(listed := s.claims.Keys))
      else s
    case PatchClaim(outcome) =>
      if s.pc.Looping? && s.pc.next < |s.pc.items| then PatchNext(hash, s, outcome) else s
    case EndLoop =>
      if s.pc.Looping? && s.pc.next == |s.pc.items|
      then s.(pc := if s.pc.failed then Idle else Finishing(s.pc.stored))
      else s
    case PatchClass(outcome) =>
      if s.pc.Finishing? then PatchClassNow(hash, s, outcome) else s
    case Abort =>
      s.(pc := Idle)
    case EditSpec(spec) =>
      s.(nodeClass := s.nodeClass.(spec := spec))
    case CreateClaim(id, annotations, condition) =>
      if id in s.log.used || HASH in annotations || HASH_VERSION in annotations then s
      else s.(claims := s.claims[id := Claim(annotations, condition)],
              log := s.log.(used := s.log.used + {id},
                            everDrifted := if condition then s.log.everDrifted + {id} else s.log.everDrifted))
    case DeleteClaim(id) =>
      s.(claims := s.claims - {id})
    case SetDrifted(id, value) =>
      if id !in s.claims then s
      else s.(claims := s.claims[id := s.claims[id].(drifted := value)],
              log := if value then s.log.(everDrifted := s.log.everDrifted + {id}) else s.log)
  }

  ghost function Run(hash: Spec -> string, s: State, actions: seq<Action>): State
    decreases |actions|
  {
    if actions == [] then s
    else Next(hash, Run(hash, s, actions[..|actions| - 1]), actions[|actions| - 1])
  }

  lemma {:induction false} RunConcat(hash: Spec -> string, s: State, a: seq<Action>, b: seq<Action>)
    ensures Run(hash, s, a + b) == Run(hash, Run(hash, s, a), b)
    decreases |b|
  {
    if b == [] {
      assert a + b == a;
    } else {
      assert (a + b)[..|a + b| - 1] == a + b[..|b| - 1];
      RunConcat(hash, s, a, b[..|b| - 1]);
    }
  }

  /** Where every run starts: nothing is stamped with the current version yet. */
  ghost predicate Start(s: State) {
    && s.pc.Idle?
    && (forall id :: id in s.claims ==> id in s.log.used && !HasVersion(s.claims[id].annotations, CURRENT_VERSION))
    && (forall id :: id in s.claims && s.claims[id].drifted ==> id in s.log.everDrifted)
    && s.log.stamps == map[]
    && s.log.classStamp == None
    && s.log.listed == {}
  }

  /** The two keys the drift decision looks at are the same in `a` and `b`. */
  ghost predicate SameKeys(a: Annotations, b: Annotations) {
    && (HASH in a <==> HASH in b)
    && (HASH in a ==> a[HASH] == b[HASH])
    && (HASH_VERSION in a <==> HASH_VERSION in b)
    && (HASH_VERSION in a ==> a[HASH_VERSION] == b[HASH_VERSION])
  }

  /** The hash controller alone writes the two keys, so its copies of them are never stale. */
  ghost predicate CopiesFresh(s: State) {
    && (s.pc.Idle? || SameKeys(s.pc.stored.annotations, s.nodeClass.annotations))
    && (s.pc.Looping? ==>
          && s.pc.next <= |s.pc.items|
          && (forall j, k :: 0 <= j < k < |s.pc.items| ==> s.pc.items[j].id != s.pc.items[k].id)
          && (forall k :: 0 <= k < |s.pc.items| ==> s.pc.items[k].id in s.log.used)
          && (forall k :: 0 <= k < |s.pc.items| && s.pc.items[k].claim.drifted ==>
             s.pc.items[k].id in s.log.everDrifted)
          && (forall k :: s.pc.next <= k < |s.pc.items| && s.pc.items[k].id in s.claims ==>
                SameKeys(s.pc.items[k].claim.annotations, s.claims[s.pc.items[k].id].annotations)))
  }

  ghost predicate SameHash(a: Annotations, b: Annotations) {
    (HASH in a <==> HASH in b) && (HASH in a ==> a[HASH] == b[HASH])
  }

  /** What the annotations of claim `id` say about a run that started in `s0`: stamped with
      the hash of a known spec, or versioned while drifted and so still with its old hash,
      or untouched. */
  ghost predicate ClaimTraced(hash: Spec -> string, s0: State, s: State, id: ClaimId)
    requires id in s.claims
  {
    var a := s.claims[id].annotations;
    if id in s.log.stamps then
      HasVersion(a, CURRENT_VERSION) && HASH in a && a[HASH] == hash(s.log.stamps[id])
    else if HasVersion(a, CURRENT_VERSION) then
      id in s.log.everDrifted && if id in s0.claims then SameHash(a, s0.claims[id].annotations) else HASH !in a
    else if id in s0.claims then
      SameKeys(a, s0.claims[id].annotations)
    else
      HASH !in a && HASH_VERSION !in a
  }

  ghost predicate ClassTraced(hash: Spec -> string, s0: State, s: State) {
    var a := s.nodeClass.annotations;
    match s.log.classStamp
    case None => SameKeys(a, s0.nodeClass.annotations)
    case Some(spec) => HasVersion(a, CURRENT_VERSION) && HASH in a && a[HASH] == hash(spec)
  }

  ghost predicate Inv(hash: Spec -> string, s0: State, s: State) {
    && CopiesFresh(s)
    && s0.claims.Keys <= s0.log.used <= s.log.used
    && (forall id :: id in s.claims ==> id in s.log.used)
    && (forall id :: id in s.claims && s.claims[id].drifted ==> id in s.log.everDrifted)
    && (forall id :: id in s.claims ==> ClaimTraced(hash, s0, s, id))
    && (forall id :: id in s.log.stamps ==> id in s.log.used)
    && ClassTraced(hash, s0, s)
    && (HasVersion(s0.nodeClass.annotations, CURRENT_VERSION) ==>
          HasVersion(s.nodeClass.annotations, CURRENT_VERSION) && (s.pc.Idle? || s.pc.Finishing?)
              && s.log.stamps == map[]
          && forall id :: id in s.claims ==> !HasVersion(s.claims[id].annotations, CURRENT_VERSION))
  }

  lemma ClaimPatchAtKeys(hash: Spec -> string, spec: Spec, snapshot: Claim, current: Annotations)
    requires SameKeys(snapshot.annotations, current)
    ensures var patched := current + MergeDiff(snapshot.annotations, ModifiedClaim(hash, spec, snapshot));
            && HasVersion(patched, CURRENT_VERSION)
            && (snapshot.drifted ==> SameHash(patched, current))
            && (!snapshot.drifted ==> HASH in patched && patched[HASH] == hash(spec))
  {
  }

  lemma ClassPatchAtKeys(hash: Spec -> string, stored: NodeClass, current: Annotations)
    requires SameKeys(stored.annotations, current)
    ensures var patched := current + MergeDiff(stored.annotations, ModifiedClass(hash, stored));
            HasVersion(patched, CURRENT_VERSION) && HASH in patched && patched[HASH] == hash(stored.spec)
  {
  }

  lemma PatchNextKeepsInv(hash: Spec -> string, s0: State, s: State, outcome: Outcome)
    requires Inv(hash, s0, s) && s.pc.Looping? && s.pc.next < |s.pc.items|
    ensures Inv(hash, s0, PatchNext(hash, s, outcome))
  {
    var item := s.pc.items[s.pc.next];
    var s' := PatchNext(hash, s, outcome);
    if !HasVersion(item.claim.annotations, CURRENT_VERSION) && !outcome.Rejected? && item.id in s.claims {
      ClaimPatchAtKeys(hash, s.pc.stored.spec, item.claim, s.claims[item.id].annotations);
      forall id | id in s'.claims ensures ClaimTraced(hash, s0, s', id) {
        assert ClaimTraced(hash, s0, s, id);
      }
    } else {
      forall id | id in s'.claims ensures ClaimTraced(hash, s0, s', id) {
        assert ClaimTraced(hash, s0, s, id);
      }
    }
  }

  lemma PatchClassKeepsInv(hash: Spec -> string, s0: State, s: State, outcome: Outcome)
    requires Inv(hash, s0, s) && s.pc.Finishing?
    ensures Inv(hash, s0, PatchClassNow(hash, s, outcome))
  {
    ClassPatchAtKeys(hash, s.pc.stored, s.nodeClass.annotations);
    var s' := PatchClassNow(hash, s, outcome);
    forall id | id in s'.claims ensures ClaimTraced(hash, s0, s', id) {
      assert ClaimTraced(hash, s0, s, id);
    }
  }

  lemma ListKeepsInv(hash: Spec -> string, s0: State, s: State, order: seq<ClaimId>)
    requires Inv(hash, s0, s) && s.pc.Listing? && Lists(order, s.claims.Keys)
    ensures Inv(hash, s0, Next(hash, s, ListClaims(order)))
  {
  }

  lemma CreateKeepsInv(hash: Spec -> string, s0: State, s: State, a: Action)
    requires Inv(hash, s0, s) && a.CreateClaim?
    ensures Inv(hash, s0, Next(hash, s, a))
  {
    var s' := Next(hash, s, a);
    forall id | id in s'.claims ensures ClaimTraced(hash, s0, s', id) {
      if id in s.claims { assert ClaimTraced(hash, s0, s, id); }
    }
  }

  lemma DeleteKeepsInv(hash: Spec -> string, s0: State, s: State, a: Action)
    requires Inv(hash, s0, s) && a.DeleteClaim?
    ensures Inv(hash, s0, Next(hash, s, a))
  {
  }

  lemma SetDriftedKeepsInv(hash: Spec -> string, s0: State, s: State, a: Action)
    requires Inv(hash, s0, s) && a.SetDrifted?
    ensures Inv(hash, s0, Next(hash, s, a))
  {
    var s' := Next(hash, s, a);
    forall id | id in s'.claims ensures ClaimTraced(hash, s0, s', id) {
      assert ClaimTraced(hash, s0, s, id);
    }
  }

  lemma NextKeepsInv(hash: Spec -> string, s0: State, s: State, a: Action)
    requires Inv(hash, s0, s)
    ensures Inv(hash, s0, Next(hash, s, a))
  {
    if a.PatchClaim? && s.pc.Looping? && s.pc.next < |s.pc.items| {
      PatchNextKeepsInv(hash, s0, s, a.outcome);
    } else if a.PatchClass? && s.pc.Finishing? {
      PatchClassKeepsInv(hash, s0, s, a.outcome);
    } else if a.ListClaims? && s.pc.Listing? && Lists(a.order, s.claims.Keys) {
      ListKeepsInv(hash, s0, s, a.order);
    } else if a.CreateClaim? {
      CreateKeepsInv(hash, s0, s, a);
    } else if a.DeleteClaim? {
      DeleteKeepsInv(hash, s0, s, a);
    } else if a.SetDrifted? {
      SetDriftedKeepsInv(hash, s0, s, a);
    } else {
      var s' := Next(hash, s, a);
      assert s'.claims == s.claims && s'.log == s.log;
      forall id | id in s'.claims ensures ClaimTraced(hash, s0, s', id) {
        assert ClaimTraced(hash, s0, s, id);
      }
    }
  }

  lemma {:induction false} RunKeepsInv(hash: Spec -> string, s0: State, actions: seq<Action>)
    requires Start(s0)
    ensures Inv(hash, s0, Run(hash, s0, actions))
    decreases |actions|
  {
    if actions != [] {
      RunKeepsInv(hash, s0, actions[..|actions| - 1]);
      NextKeepsInv(hash, s0, Run(hash, s0, actions[..|actions| - 1]), actions[|actions| - 1]);
    }
  }

  // ---------------------------------------------------------------------------
  // Drift checks between any two calls. A check reads the claim first and its class
  // later, so the claim is taken from the state after i actions and the class from the
  // state after j >= i actions.
  // ---------------------------------------------------------------------------

  ghost predicate Reported(later: State, earlier: State, id: ClaimId)
    requires id in earlier.claims
  {
    StaticFieldsDrifted(later.nodeClass.annotations, earlier.claims[id].annotations)
  }

  ghost predicate Unedited(actions: seq<Action>) {
    forall a :: a in actions ==> !a.EditSpec?
  }

  ghost predicate OneSpec(s: State, spec: Spec) {
    && s.nodeClass.spec == spec
    && (!s.pc.Idle? ==> s.pc.stored.spec == spec)
    && (forall id :: id in s.log.stamps ==> s.log.stamps[id] == spec)
    && (s.log.classStamp.Some? ==> s.log.classStamp.value == spec)
  }

  lemma NextKeepsOneSpec(hash: Spec -> string, s: State, a: Action, spec: Spec)
    requires OneSpec(s, spec) && !a.EditSpec?
    ensures OneSpec(Next(hash, s, a), spec)
  {
  }

  lemma {:induction false} UneditedRunHasOneSpec(hash: Spec -> string, s0: State, actions: seq<Action>)
    requires Start(s0) && Unedited(actions)
    ensures OneSpec(Run(hash, s0, actions), s0.nodeClass.spec)
    decreases |actions|
  {
    if actions != [] {
      var before, last := actions[..|actions| - 1], actions[|actions| - 1];
      UneditedRunHasOneSpec(hash, s0, before);
      assert last in actions;
      NextKeepsOneSpec(hash, Run(hash, s0, before), last, s0.nodeClass.spec);
    }
  }

  /** The report is exact at every moment of every run, whatever fails and whoever edits the
      spec. Before the class is stamped, only claims reported at the start are reported. From
      then on a stamped claim is reported exactly when its spec hashes differently from the
      spec the class was stamped with, and an unstamped one only if it was migrated while
      drifted, for the old hash it was left with. */
  lemma DriftExact(hash: Spec -> string, s0: State, actions: seq<Action>, i: nat, j: nat, id: ClaimId)
    requires Start(s0) && i <= j <= |actions|
    requires id in Run(hash, s0, actions[..i]).claims
    ensures var earlier, later := Run(hash, s0, actions[..i]), Run(hash, s0, actions[..j]);
            var versioned := HasVersion(earlier.claims[id].annotations, CURRENT_VERSION);
            Reported(later, earlier, id) <==>
              match later.log.classStamp
              case None => id in s0.claims && !versioned && Reported(s0, s0, id)
              case Some(annotated) =>
                if id in earlier.log.stamps then
                  hash(earlier.log.stamps[id]) != hash(annotated)
                else
                  && versioned && id in earlier.log.everDrifted && id in s0.claims
                  && HASH in s0.claims[id].annotations && s0.claims[id].annotations[HASH] != hash(annotated)
  {
    RunKeepsInv(hash, s0, actions[..i]);
    RunKeepsInv(hash, s0, actions[..j]);
    var earlier := Run(hash, s0, actions[..i]);
    assert ClaimTraced(hash, s0, earlier, id);
  }

  /** While the spec is unedited, a claim that never carried the Drifted condition is reported
      only if it was already reported before the migration began. */
  lemma NoSpuriousDrift(hash: Spec -> string, s0: State, actions: seq<Action>, i: nat, j: nat, id: ClaimId)
    requires Start(s0) && Unedited(actions) && i <= j <= |actions|
    requires var earlier := Run(hash, s0, actions[..i]); id in earlier.claims && id !in earlier.log.everDrifted
    ensures Reported(Run(hash, s0, actions[..j]), Run(hash, s0, actions[..i]), id) ==>
              id in s0.claims && Reported(s0, s0, id)
  {
    DriftExact(hash, s0, actions, i, j, id);
    UneditedRunHasOneSpec(hash, s0, actions[..i]);
    UneditedRunHasOneSpec(hash, s0, actions[..j]);
  }

  ghost predicate KeptDrifted(s: State, id: ClaimId) {
    && id in s.log.used && id !in s.log.stamps
    && (id in s.claims ==> s.claims[id].drifted)
    && (s.pc.Looping? ==> forall k :: 0 <= k < |s.pc.items| && s.pc.items[k].id == id ==> s.pc.items[k].claim.drifted)
  }

  lemma NextKeepsDrifted(hash: Spec -> string, s: State, a: Action, id: ClaimId)
    requires KeptDrifted(s, id) && a != SetDrifted(id, false)
    ensures KeptDrifted(Next(hash, s, a), id)
  {
  }

  /** A claim that carries the Drifted condition throughout is never restamped: it keeps the
      hash it started with. */
  lemma {:induction false} DriftedClaimKeepsHash(hash: Spec -> string, s0: State, actions: seq<Action>, id: ClaimId)
    requires Start(s0) && id in s0.claims && s0.claims[id].drifted
    requires forall a :: a in actions ==> a != SetDrifted(id, false)
    ensures var s := Run(hash, s0, actions);
            KeptDrifted(s, id) && (id in s.claims ==> SameHash(s.claims[id].annotations, s0.claims[id].annotations))
    decreases |actions|
  {
    if actions != [] {
      var before, last := actions[..|actions| - 1], actions[|actions| - 1];
      assert last in actions && forall a :: a in before ==> a in actions;
      DriftedClaimKeepsHash(hash, s0, before, id);
      NextKeepsDrifted(hash, Run(hash, s0, before), last, id);
    }
    RunKeepsInv(hash, s0, actions);
    var s := Run(hash, s0, actions);
    if id in s.claims { assert ClaimTraced(hash, s0, s, id); }
  }

  /** A pass during which the spec is not edited leaves the class stamped with its own spec,
      so that from there `DriftExact` compares with the spec in force. */
  lemma PassStampsCurrentSpec(hash: Spec -> string, s0: State, before: seq<Action>, during: seq<Action>,
      outcome: Outcome)
    requires Start(s0) && Unedited(during)
    requires Run(hash, s0, before).pc.Idle?
    requires Run(hash, s0, before + during).pc.Finishing? && !outcome.Rejected?
    ensures var s := Run(hash, s0, before + during + [PatchClass(outcome)]);
            s.log.classStamp == Some(s.nodeClass.spec)
  {
    RunConcat(hash, s0, before, during);
    StoredSpecInForce(hash, Run(hash, s0, before), during);
    var all := before + during + [PatchClass(outcome)];
    assert all[..|all| - 1] == before + during;
  }

  lemma {:induction false} StoredSpecInForce(hash: Spec -> string, s: State, actions: seq<Action>)
    requires s.pc.Idle? && Unedited(actions)
    ensures var s' := Run(hash, s, actions); s'.pc.Idle? || s'.pc.stored.spec == s'.nodeClass.spec
    decreases |actions|
  {
    if actions != [] {
      StoredSpecInForce(hash, s, actions[..|actions| - 1]);
    }
  }

  // ---------------------------------------------------------------------------
  // Order: claims first, class last.
  // ---------------------------------------------------------------------------

  ghost predicate ListedAreVersioned(s: State) {
    forall id :: id in s.log.listed && id in s.claims ==> HasVersion(s.claims[id].annotations, CURRENT_VERSION)
  }

  ghost predicate OrderInv(s: State) {
    && s.log.listed <= s.log.used
    && (s.pc.Listing? || s.pc.Looping? ==> !HasVersion(s.nodeClass.annotations, CURRENT_VERSION))
    && (s.pc.Looping? ==>
          && s.pc.next <= |s.pc.items|
          && (forall id :: id in s.log.listed ==> exists k :: 0 <= k < |s.pc.items| && s.pc.items[k].id == id)
          && (!s.pc.failed ==> forall k :: 0 <= k < s.pc.next && s.pc.items[k].id in s.claims ==>
                HasVersion(s.claims[s.pc.items[k].id].annotations, CURRENT_VERSION)))
    && (s.pc.Finishing? || HasVersion(s.nodeClass.annotations, CURRENT_VERSION) ==> ListedAreVersioned(s))
  }

  lemma PatchNextKeepsOrder(hash: Spec -> string, s: State, outcome: Outcome)
    requires CopiesFresh(s) && OrderInv(s) && s.pc.Looping? && s.pc.next < |s.pc.items|
    ensures OrderInv(PatchNext(hash, s, outcome))
  {
    var item := s.pc.items[s.pc.next];
    if item.id in s.claims {
      ClaimPatchAtKeys(hash, s.pc.stored.spec, item.claim, s.claims[item.id].annotations);
    }
    var s' := PatchNext(hash, s, outcome);
    assert s'.pc.items == s.pc.items;
  }

  lemma PatchClassKeepsOrder(hash: Spec -> string, s: State, outcome: Outcome)
    requires OrderInv(s) && s.pc.Finishing?
    ensures OrderInv(PatchClassNow(hash, s, outcome))
  {
  }

  lemma ListKeepsOrder(hash: Spec -> string, s: State, order: seq<ClaimId>)
    requires OrderInv(s) && s.pc.Listing? && Lists(order, s.claims.Keys) && s.claims.Keys <= s.log.used
    ensures OrderInv(Next(hash, s, ListClaims(order)))
  {
    var s' := Next(hash, s, ListClaims(order));
    forall id | id in s'.log.listed ensures exists k :: 0 <= k < |s'.pc.items| && s'.pc.items[k].id == id {
      var k :| 0 <= k < |order| && order[k] == id;
      assert s'.pc.items[k].id == id;
    }
  }

  lemma NextKeepsOrder(hash: Spec -> string, s0: State, s: State, a: Action)
    requires Inv(hash, s0, s) && OrderInv(s)
    ensures OrderInv(Next(hash, s, a))
  {
    if a.PatchClaim? && s.pc.Looping? && s.pc.next < |s.pc.items| {
      PatchNextKeepsOrder(hash, s, a.outcome);
    } else if a.PatchClass? && s.pc.Finishing? {
      PatchClassKeepsOrder(hash, s, a.outcome);
    } else if a.ListClaims? && s.pc.Listing? && Lists(a.order, s.claims.Keys) {
      ListKeepsOrder(hash, s, a.order);
    } else if s.pc.Looping? && !a.Abort? && !a.EndLoop? {
      assert Next(hash, s, a).pc == s.pc;
    }
  }

  /** Once the class carries the current version, so does every claim that the last list
      returned and that still exists; only claims created after that list are without it. */
  lemma {:induction false} ClassVersionComesLast(hash: Spec -> string, s0: State, actions: seq<Action>)
    requires Start(s0)
    ensures var s := Run(hash, s0, actions);
            OrderInv(s) && (HasVersion(s.nodeClass.annotations, CURRENT_VERSION) ==> ListedAreVersioned(s))
    decreases |actions|
  {
    if actions != [] {
      var before := actions[..|actions| - 1];
      ClassVersionComesLast(hash, s0, before);
      RunKeepsInv(hash, s0, before);
      NextKeepsOrder(hash, s0, Run(hash, s0, before), actions[|actions| - 1]);
    }
  }

  // ---------------------------------------------------------------------------
  // Claims created after the migration.
  // ---------------------------------------------------------------------------

  /** The class is versioned, no loop over claims is under way, and claim `id` has no stamp. */
  ghost predicate LeftUnstamped(s: State, id: ClaimId) {
    && HasVersion(s.nodeClass.annotations, CURRENT_VERSION)
    && (s.pc.Idle? || (s.pc.Finishing? && SameKeys(s.pc.stored.annotations, s.nodeClass.annotations)))
    && id !in s.log.stamps
    && (id in s.claims ==> HASH !in s.claims[id].annotations && HASH_VERSION !in s.claims[id].annotations)
  }

  lemma PatchKeepsUnstamped(hash: Spec -> string, s: State, a: Action, id: ClaimId)
    requires LeftUnstamped(s, id) && a.PatchClass?
    ensures LeftUnstamped(Next(hash, s, a), id)
  {
    if s.pc.Finishing? {
      ClassPatchAtKeys(hash, s.pc.stored, s.nodeClass.annotations);
    }
  }

  lemma NextKeepsUnstamped(hash: Spec -> string, s: State, a: Action, id: ClaimId)
    requires LeftUnstamped(s, id)
    ensures LeftUnstamped(Next(hash, s, a), id)
  {
    if a.PatchClass? {
      PatchKeepsUnstamped(hash, s, a, id);
    }
  }

  /** A claim created once the class carries the current version is never stamped, and so never
      reported, whatever happens to the spec afterwards and whenever the class is read. */
  lemma {:induction false} LateClaimNeverReported(
    hash: Spec -> string, s0: State, actions: seq<Action>, i: nat, id: ClaimId)
    requires Start(s0) && i <= |actions|
    requires var s := Run(hash, s0, actions[..i]);
             HasVersion(s.nodeClass.annotations, CURRENT_VERSION) && id !in s.log.used
    ensures var s := Run(hash, s0, actions);
            LeftUnstamped(s, id) && (id in s.claims ==> forall later :: !Reported(later, s, id))
    decreases |actions|
  {
    var before := actions[..i];
    RunKeepsInv(hash, s0, before);
    ClassVersionComesLast(hash, s0, before);
    if i == |actions| {
      assert before == actions;
    } else {
      var init := actions[..|actions| - 1];
      assert init[..i] == before;
      LateClaimNeverReported(hash, s0, init, i, id);
      NextKeepsUnstamped(hash, Run(hash, s0, init), actions[|actions| - 1], id);
    }
  }

  // ---------------------------------------------------------------------------
  // Everything else on the objects.
  // ---------------------------------------------------------------------------

  ghost predicate SameAt(a: Annotations, b: Annotations, k: string) {
    (k in a <==> k in b) && (k in a ==> a[k] == b[k])
  }

  /** Whatever happens, only the two annotations of the provider change. */
  lemma {:induction false} OthersKept(hash: Spec -> string, s0: State, actions: seq<Action>, k: string)
    requires Start(s0)
    requires k != "karpenter.vsphere.com/vspherenodeclass-hash"
    requires k != "karpenter.vsphere.com/vspherenodeclass-hash-version"
    ensures var s := Run(hash, s0, actions);
            && SameAt(s.nodeClass.annotations, s0.nodeClass.annotations, k)
            && forall id :: id in s.claims && id in s0.claims ==>
                 SameAt(s.claims[id].annotations, s0.claims[id].annotations, k)
    decreases |actions|
  {
    if actions != [] {
      var before, last := actions[..|actions| - 1], actions[|actions| - 1];
      OthersKept(hash, s0, before, k);
      RunKeepsInv(hash, s0, before);
      NextKeepsOthers(hash, Run(hash, s0, before), last, k);
    }
  }

  lemma NextKeepsOthers(hash: Spec -> string, s: State, a: Action, k: string)
    requires forall id :: id in s.claims ==> id in s.log.used
    requires k != "karpenter.vsphere.com/vspherenodeclass-hash"
    requires k != "karpenter.vsphere.com/vspherenodeclass-hash-version"
    ensures var s' := Next(hash, s, a);
            && SameAt(s'.nodeClass.annotations, s.nodeClass.annotations, k)
            && s.log.used <= s'.log.used
            && forall id :: id in s'.claims && (id in s.claims || id in s.log.used) ==>
                 id in s.claims && SameAt(s'.claims[id].annotations, s.claims[id].annotations, k)
  {
  }

  // ---------------------------------------------------------------------------
  // Drift does get reported.
  // ---------------------------------------------------------------------------

  /** The annotations of an object that is in both states. */
  ghost predicate Rewritten(s: State, s': State) {
    || s'.nodeClass.annotations != s.nodeClass.annotations
    || exists id :: id in s.claims && id in s'.claims && s.claims[id].annotations != s'.claims[id].annotations
  }

  /** No annotation changes without a patch that is counted, and a step sends one at most. */
  lemma RewritesAreCounted(hash: Spec -> string, s: State, a: Action)
    requires forall id :: id in s.claims ==> id in s.log.used
    ensures var s' := Next(hash, s, a);
            && s.log.patches <= s'.log.patches <= s.log.patches + 1
            && (Rewritten(s, s') ==> s'.log.patches == s.log.patches + 1)
  {
  }

  /** The record of the Drifted condition holds exactly the claims that have carried it. */
  lemma RecordIsExact(hash: Spec -> string, s: State, a: Action, id: ClaimId)
    requires forall c :: c in s.claims && s.claims[c].drifted ==> c in s.log.everDrifted
    ensures var s' := Next(hash, s, a);
            id in s'.log.everDrifted <==> id in s.log.everDrifted || (id in s'.claims && s'.claims[id].drifted)
  {
  }

  /** What others do to the objects takes effect whenever they do it. */
  lemma OthersAct(hash: Spec -> string, s: State, spec: Spec, id: ClaimId, annotations: Annotations, b: bool)
    ensures Next(hash, s, EditSpec(spec)).nodeClass == NodeClass(spec, s.nodeClass.annotations)
    ensures id !in s.log.used && HASH !in annotations && HASH_VERSION !in annotations ==>
              Next(hash, s, CreateClaim(id, annotations, b)).claims == s.claims[id := Claim(annotations, b)]
    ensures id in s.claims ==>
              Next(hash, s, SetDrifted(id, b)).claims == s.claims[id := Claim(s.claims[id].annotations, b)]
    ensures Next(hash, s, DeleteClaim(id)).claims == s.claims - {id}
  {
  }

  /** A class and a claim of it, both without annotations. */
  ghost function Fresh(spec: Spec): State {
    State(NodeClass(spec, map[]), map[0 := Claim(map[], false)], Idle, History({0}, {}, map[], None, {}, 0))
  }

  /** A first pass over the claim and the class, an edit of the spec, and a second pass. */
  ghost function EditRun(edited: Spec): seq<Action> {
    [Begin, ListClaims([0]), PatchClaim(Applied), EndLoop, PatchClass(Applied), EditSpec(edited), Begin,
     PatchClass(Applied)]
  }

  ghost function Stamp(h: string): Annotations {
    map[HASH := h][HASH_VERSION := CURRENT_VERSION]
  }

  /** The state after the first pass. */
  lemma FirstPass(hash: Spec -> string, spec: Spec)
    ensures var s1 := Next(hash, Fresh(spec), Begin);
            var s2 := Next(hash, s1, ListClaims([0]));
            var s3 := Next(hash, s2, PatchClaim(Applied));
            var s4 := Next(hash, s3, EndLoop);
            var s := Next(hash, s4, PatchClass(Applied));
            && s.nodeClass == NodeClass(spec, Stamp(hash(spec))) && s.pc.Idle?
            && s.claims == map[0 := Claim(Stamp(hash(spec)), false)]
  {
    KeysDiffer();
    var s1 := Next(hash, Fresh(spec), Begin);
    assert s1.pc == Listing(s1.nodeClass);
    assert Lists([0], s1.claims.Keys);
    var s2 := Next(hash, s1, ListClaims([0]));
    assert s2.pc == Looping(s1.nodeClass, [Item(0, Claim(map[], false))], 0, false);
    var s3 := Next(hash, s2, PatchClaim(Applied));
    assert s3.claims[0].annotations == Stamp(hash(spec));
    var s4 := Next(hash, s3, EndLoop);
    assert s4.pc == Finishing(s1.nodeClass);
  }

  lemma SecondPass(hash: Spec -> string, s: State, edited: Spec)
    requires s.pc.Idle? && HasVersion(s.nodeClass.annotations, CURRENT_VERSION)
    ensures var s' := Next(hash, Next(hash, Next(hash, s, EditSpec(edited)), Begin), PatchClass(Applied));
            s'.claims == s.claims && s'.nodeClass.spec == edited && HASH in s'.nodeClass.annotations
            && s'.nodeClass.annotations[HASH] == hash(edited)
            && HasVersion(s'.nodeClass.annotations, CURRENT_VERSION)
  {
    KeysDiffer();
  }

  /** After an edit that changes the hash, the second pass makes the claim reported. */
  lemma EditIsReported(hash: Spec -> string, spec: Spec, edited: Spec)
    requires hash(spec) != hash(edited)
    ensures Start(Fresh(spec))
    ensures var s := Run(hash, Fresh(spec), EditRun(edited));
            s.nodeClass.spec == edited && 0 in s.claims && Reported(s, s, 0)
  {
    FirstPass(hash, spec);
    var all := EditRun(edited);
    var s := Fresh(spec);
    hide Next, Run;
    RunEight(hash, s, all);
    var s5 := Next(hash, Next(hash, Next(hash, Next(hash, Next(hash, s, all[0]), all[1]), all[2]), all[3]), all[4]);
    SecondPass(hash, s5, edited);
    KeysDiffer();
  }

  lemma RunFour(hash: Spec -> string, s: State, a: seq<Action>)
    requires |a| == 4
    ensures Run(hash, s, a) == Next(hash, Next(hash, Next(hash, Next(hash, s, a[0]), a[1]), a[2]), a[3])
  {
    hide Next;
    assert a[..3][..2] == a[..2] && a[..2][..1] == a[..1] && a[..1][..0] == [];
    assert Run(hash, s, a[..1]) == Next(hash, s, a[0]);
    assert Run(hash, s, a[..2]) == Next(hash, Run(hash, s, a[..1]), a[1]);
    assert Run(hash, s, a[..3]) == Next(hash, Run(hash, s, a[..2]), a[2]);
  }

  lemma RunEight(hash: Spec -> string, s: State, a: seq<Action>)
    requires |a| == 8
    ensures Run(hash, s, a) ==
            Next(hash, Next(hash, Next(hash, Next(hash, Next(hash, Next(hash, Next(hash, Next(hash, s,
              a[0]), a[1]), a[2]), a[3]), a[4]), a[5]), a[6]), a[7])
  {
    hide Next, Run;
    assert a == a[..4] + a[4..];
    RunConcat(hash, s, a[..4], a[4..]);
    RunFour(hash, s, a[..4]);
    RunFour(hash, Run(hash, s, a[..4]), a[4..]);
  }
}
