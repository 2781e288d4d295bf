/** The finalizer protocol between the termination controller, the status controller and
    launches, for the NodeClass of one name. Every read, list and patch is a step of its own. */
module Termination {
  import opened Prelude

  type ClaimId = nat
  type Uid = nat
  type Version = nat
  type Worker = nat

  const TERMINATION := "karpenter.vsphere.com/termination"

  /** A stored NodeClass. A name may be reused: `uid` tells its incarnations apart, and every
      write gets a resource version never used before. */
  datatype NodeClass = NodeClass(uid: Uid, version: Version, deleting: bool, finalizers: set<string>, ready: bool)

  datatype TerminationPc = Resting | Found(copy: NodeClass) | Cleared(copy: NodeClass)

  datatype StatusPc = Waiting | Adding(copy: NodeClass) | Reconciling(copy: NodeClass)

  /** `claims` are the NodeClaims referring to the class name, each with the incarnations whose
      check it passed; `flights` are the launches between the check and the end of `Create`;
      `everPassed` only records. */
  datatype State = State(
    nodeClass: Option<NodeClass>,
    claims: map<ClaimId, set<Uid>>,
    flights: map<ClaimId, Uid>,
    terminators: map<Worker, TerminationPc>,
    reconcilers: map<Worker, StatusPc>,
    nextUid: Uid,
    nextVersion: Version,
    usedClaims: set<ClaimId>,
    everPassed: set<(ClaimId, Uid)>)

  datatype Action =
    | CreateClass(finalizers: set<string>)
    | DeleteClass
    | AddForeign(finalizer: string)
    | RemoveForeign(finalizer: string)
    | CreateClaim(id: ClaimId)
    | DeleteClaim(id: ClaimId)
    | PassCheck(id: ClaimId)
    | EndLaunch(id: ClaimId)
    | FindTerminating(w: Worker)
    | ListClaims(w: Worker)
    | RemoveFinalizer(w: Worker)
    | GiveUpTermination(w: Worker)
    | ReadForStatus(w: Worker)
    | AddFinalizer(w: Worker)
    | PatchStatus(w: Worker)
    | GiveUpStatus(w: Worker)

  /** An object marked for deletion disappears with its last finalizer. */
  function Store(c: NodeClass, version: Version): Option<NodeClass> {
    if c.deleting && c.finalizers == {} then None else Some(c.(version := version))
  }

  /** The finalizer patch under optimistic lock: a copy of another version is a conflict. */
  function LockedRemove(current: Option<NodeClass>, copy: NodeClass, version: Version): Option<NodeClass> {
    if current.None? || current.value.version != copy.version then current
    else Store(current.value.(finalizers := copy.finalizers - {TERMINATION}), version)
  }

  /** The unlocked finalizer patch replaces the whole list by the copy's list plus one. The API
      server refuses new finalizers on an object that is being deleted. */
  function UnlockedAdd(current: NodeClass, copy: NodeClass): Option<NodeClass> {
    var finalizers := copy.finalizers + {TERMINATION};
    if current.deleting && !(finalizers <= current.finalizers) then None
    else Some(current.(finalizers := finalizers))
  }

  /** The gate of `Create`: the class exists, is not terminating, and is ready. */
  predicate PassesCheck(c: Option<NodeClass>) {
    c.Some? && !c.value.deleting && c.value.ready
  }

  function Next(s: State, a: Action): State {
    match a
    case CreateClass(finalizers) =>
      if s.nodeClass.Some? then s
      else s.(nodeClass := Some(NodeClass(s.nextUid, s.nextVersion, false, finalizers, false)),
              nextUid := s.nextUid + 1, nextVersion := s.nextVersion + 1)
    case DeleteClass =>
      if s.nodeClass.None? then s
      else s.(nodeClass := Store(s.nodeClass.value.(deleting := true), s.nextVersion), nextVersion := s.nextVersion + 1)
    case AddForeign(f) =>
      if s.nodeClass.None? || f == TERMINATION || s.nodeClass.value.deleting then s
      else s.(nodeClass := Store(s.nodeClass.value.(finalizers := s.nodeClass.value.finalizers + {f}), s.nextVersion),
              nextVersion := s.nextVersion + 1)
    case RemoveForeign(f) =>
      if s.nodeClass.None? || f == TERMINATION then s
      else s.(nodeClass := Store(s.nodeClass.value.(finalizers := s.nodeClass.value.finalizers - {f}), s.nextVersion),
              nextVersion := s.nextVersion + 1)
    case CreateClaim(id) =>
      if id in s.usedClaims then s
      else s.(claims := s.claims[id := {}], usedClaims := s.usedClaims + {id})
    case DeleteClaim(id) =>
      // Karpenter core keeps a claim while its launch is in flight.
      if id in s.flights then s else s.(claims := s.claims - {id})
    case PassCheck(id) =>
      // The class is read as it is now.
      if id !in s.claims || id in s.flights || !PassesCheck(s.nodeClass) then s
      else s.(claims := s.claims[id := s.claims[id] + {s.nodeClass.value.uid}],
              flights := s.flights[id := s.nodeClass.value.uid],
              everPassed := s.everPassed + {(id, s.nodeClass.value.uid)})
    case EndLaunch(id) =>
      s.(flights := s.flights - {id})
    case FindTerminating(w) =>
      if s.nodeClass.None? || !s.nodeClass.value.deleting || TERMINATION !in s.nodeClass.value.finalizers then s
      else s.(terminators := s.terminators[w := Found(s.nodeClass.value)])
    case ListClaims(w) =>
      if w !in s.terminators || !s.terminators[w].Found? then s
      else s.(terminators :=
          s.terminators[w := if s.claims.Keys != {} then Resting else Cleared(s.terminators[w].copy)])
    case RemoveFinalizer(w) =>
      if w !in s.terminators || !s.terminators[w].Cleared? then s
      else s.(nodeClass := LockedRemove(s.nodeClass, s.terminators[w].copy, s.nextVersion),
              terminators := s.terminators[w := Resting], nextVersion := s.nextVersion + 1)
    case GiveUpTermination(w) =>
      s.(terminators := s.terminators[w := Resting])
    case ReadForStatus(w) =>
      if s.nodeClass.None? then s
      else s.(reconcilers := s.reconcilers[w :=
                if TERMINATION in s.nodeClass.value.finalizers then Reconciling(s.nodeClass.value)
                 else Adding(s.nodeClass.value)])
    case AddFinalizer(w) =>
      if w !in s.reconcilers || !s.reconcilers[w].Adding? then s
      else if s.nodeClass.None? then s.(reconcilers := s.reconcilers[w := Waiting])
      else (match UnlockedAdd(s.nodeClass.value, s.reconcilers[w].copy)
            case None => s.(reconcilers := s.reconcilers[w := Waiting])
            case Some(c) =>
              var stored := c.(version := s.nextVersion);
              s.(nodeClass := Some(stored), reconcilers := s.reconcilers[w := Reconciling(stored)],
                 nextVersion := s.nextVersion + 1))
    case PatchStatus(w) =>
      if w !in s.reconcilers || !s.reconcilers[w].Reconciling? then s
      else if s.nodeClass.None? || s.nodeClass.value.version != s.reconcilers[w].copy.version then
        s.(reconcilers := s.reconcilers[w := Waiting])
      else s.(nodeClass := Some(s.nodeClass.value.(ready := true, version := s.nextVersion)),
              reconcilers := s.reconcilers[w := Waiting], nextVersion := s.nextVersion + 1)
    case GiveUpStatus(w) =>
      s.(reconcilers := s.reconcilers[w := Waiting])
  }

  function Run(s: State, actions: seq<Action>): State
    decreases |actions|
  {
    if actions == [] then s
    else Next(Run(s, actions[..|actions| - 1]), actions[|actions| - 1])
  }

  /** Where every run starts: no class, no claims, nobody at work. */
  const START := State(None, map[], map[], map[], map[], 0, 0, {}, {})

  // ---------------------------------------------------------------------------
  // The invariant.
  // ---------------------------------------------------------------------------

  /** A copy taken from the store: if its version is still the stored one, so is the rest. */
  ghost predicate TrueCopy(s: State, copy: NodeClass) {
    && copy.version < s.nextVersion
    && (s.nodeClass.Some? && s.nodeClass.value.version == copy.version ==> s.nodeClass.value == copy)
  }

  ghost predicate StillDeleting(s: State, copy: NodeClass) {
    copy.uid < s.nextUid && (s.nodeClass.Some? && s.nodeClass.value.uid == copy.uid ==> s.nodeClass.value.deleting)
  }

  ghost predicate NoClaimOf(s: State, u: Uid) {
    forall id :: id in s.claims ==> u !in s.claims[id]
  }

  ghost predicate TerminatorInv(s: State, pc: TerminationPc) {
    match pc
    case Resting => true
    case Found(copy) => TrueCopy(s, copy) && StillDeleting(s, copy)
    case Cleared(copy) => TrueCopy(s, copy) && StillDeleting(s, copy) && NoClaimOf(s, copy.uid)
  }

  ghost predicate ReconcilerInv(s: State, pc: StatusPc) {
    match pc
    case Waiting => true
    case Adding(copy) => TrueCopy(s, copy) && TERMINATION !in copy.finalizers
    case Reconciling(copy) => TrueCopy(s, copy) && TERMINATION in copy.finalizers
  }

  /** A claim that passed the check of an incarnation keeps that incarnation in the store, held
      by the termination finalizer. */
  ghost predicate ClaimsHeld(s: State) {
    && (forall id, u :: id in s.claims && u in s.claims[id] ==>
          s.nodeClass.Some? && s.nodeClass.value.uid == u && TERMINATION in s.nodeClass.value.finalizers)
    && (forall id :: id in s.flights ==> id in s.claims && s.flights[id] in s.claims[id])
  }

  ghost predicate ClassInv(s: State) {
    s.nodeClass.Some? ==>
      var c := s.nodeClass.value;
      && c.uid < s.nextUid && c.version < s.nextVersion
      && (c.ready && !c.deleting ==> TERMINATION in c.finalizers)
  }

  ghost predicate Inv(s: State) {
    && ClassInv(s)
    && ClaimsHeld(s)
    && (forall w :: w in s.terminators ==> TerminatorInv(s, s.terminators[w]))
    && (forall w :: w in s.reconcilers ==> ReconcilerInv(s, s.reconcilers[w]))
    && (forall id :: id in s.claims ==> id in s.usedClaims)
  }

  /** What a worker knows survives any step that only makes versions newer, keeps a deleting
      class deleting, and lets no claim pass a deleting class. */
  lemma WorkersKept(s: State, s': State)
    requires Inv(s)
    requires s.nextVersion <= s'.nextVersion && s.nextUid <= s'.nextUid
    requires s'.nodeClass.Some? ==> s'.nodeClass == s.nodeClass || s'.nodeClass.value.version == s.nextVersion
    requires s'.nodeClass.Some? && s'.nodeClass.value.uid < s.nextUid ==>
               && s.nodeClass.Some? && s.nodeClass.value.uid == s'.nodeClass.value.uid
               && (s.nodeClass.value.deleting ==> s'.nodeClass.value.deleting)
    requires forall id, u :: id in s'.claims && u in s'.claims[id] && !(id in s.claims && u in s.claims[id]) ==>
               s.nodeClass.Some? && s.nodeClass.value.uid == u && !s.nodeClass.value.deleting
                   && s'.nodeClass == s.nodeClass
    ensures forall w :: w in s.terminators && w in s'.terminators && s'.terminators[w] == s.terminators[w] ==>
              TerminatorInv(s', s'.terminators[w])
    ensures forall w :: w in s.reconcilers && w in s'.reconcilers && s'.reconcilers[w] == s.reconcilers[w] ==>
              ReconcilerInv(s', s'.reconcilers[w])
  {
  }

  /** The steps that write the class, each keeping the claims' hold on it. */
  predicate WritesClass(a: Action) {
    a.CreateClass? || a.DeleteClass? || a.AddForeign? || a.RemoveForeign? || a.RemoveFinalizer? || a.AddFinalizer?
        || a.PatchStatus?
  }

  lemma RemoveKeepsClaims(s: State, a: Action)
    requires Inv(s) && a.RemoveFinalizer?
    ensures ClassInv(Next(s, a)) && ClaimsHeld(Next(s, a))
  {
  }

  lemma PatchKeepsClaims(s: State, a: Action)
    requires Inv(s) && a.PatchStatus?
    ensures ClassInv(Next(s, a)) && ClaimsHeld(Next(s, a))
  {
  }

  lemma AddKeepsClaims(s: State, a: Action)
    requires Inv(s) && a.AddFinalizer?
    ensures ClassInv(Next(s, a)) && ClaimsHeld(Next(s, a))
  {
  }

  lemma EditKeepsClaims(s: State, a: Action)
    requires Inv(s) && (a.CreateClass? || a.DeleteClass? || a.AddForeign? || a.RemoveForeign?)
    ensures ClassInv(Next(s, a)) && ClaimsHeld(Next(s, a))
  {
    if s.nodeClass.Some? && TERMINATION in s.nodeClass.value.finalizers {
      var finalizers := s.nodeClass.value.finalizers;
      match a {
        case AddForeign(f) => assert TERMINATION in finalizers + {f};
        case RemoveForeign(f) => assert f != TERMINATION ==> TERMINATION in finalizers - {f};
        case _ =>
      }
    }
  }

  lemma WriteKeepsClaims(s: State, a: Action)
    requires Inv(s) && WritesClass(a)
    ensures ClassInv(Next(s, a)) && ClaimsHeld(Next(s, a))
  {
    match a {
      case RemoveFinalizer(_) => RemoveKeepsClaims(s, a);
      case PatchStatus(_) => PatchKeepsClaims(s, a);
      case AddFinalizer(_) => AddKeepsClaims(s, a);
      case _ => EditKeepsClaims(s, a);
    }
  }

  ghost predicate WorkersKeepInv(s: State, s': State) {
    && (forall w :: w in s'.terminators ==> TerminatorInv(s', s'.terminators[w]))
    && (forall w :: w in s'.reconcilers ==> ReconcilerInv(s', s'.reconcilers[w]))
    && s'.claims == s.claims && s'.usedClaims == s.usedClaims
  }

  lemma RemoveKeepsWorkers(s: State, a: Action)
    requires Inv(s) && a.RemoveFinalizer?
    ensures WorkersKeepInv(s, Next(s, a))
  {
  }

  lemma PatchKeepsWorkers(s: State, a: Action)
    requires Inv(s) && a.PatchStatus?
    ensures WorkersKeepInv(s, Next(s, a))
  {
  }

  lemma AddKeepsWorkers(s: State, a: Action)
    requires Inv(s) && a.AddFinalizer?
    ensures WorkersKeepInv(s, Next(s, a))
  {
    WorkersKept(s, Next(s, a));
  }

  lemma EditKeepsWorkers(s: State, a: Action)
    requires Inv(s) && (a.CreateClass? || a.DeleteClass? || a.AddForeign? || a.RemoveForeign?)
    ensures WorkersKeepInv(s, Next(s, a))
  {
    WorkersKept(s, Next(s, a));
  }

  lemma WriteKeepsWorkers(s: State, a: Action)
    requires Inv(s) && WritesClass(a)
    ensures WorkersKeepInv(s, Next(s, a))
  {
    match a {
      case RemoveFinalizer(_) => RemoveKeepsWorkers(s, a);
      case PatchStatus(_) => PatchKeepsWorkers(s, a);
      case AddFinalizer(_) => AddKeepsWorkers(s, a);
      case _ => EditKeepsWorkers(s, a);
    }
  }

  lemma TerminatorKeepsInv(s: State, a: Action)
    requires Inv(s) && (a.FindTerminating? || a.ListClaims? || a.GiveUpTermination?)
    ensures Inv(Next(s, a))
  {
    WorkersKept(s, Next(s, a));
  }

  lemma ReaderKeepsInv(s: State, a: Action)
    requires Inv(s) && (a.ReadForStatus? || a.GiveUpStatus?)
    ensures Inv(Next(s, a))
  {
    WorkersKept(s, Next(s, a));
  }

  lemma NextKeepsInv(s: State, a: Action)
    requires Inv(s)
    ensures Inv(Next(s, a))
  {
    if a.FindTerminating? || a.ListClaims? || a.GiveUpTermination? {
      TerminatorKeepsInv(s, a);
    } else if a.ReadForStatus? || a.GiveUpStatus? {
      ReaderKeepsInv(s, a);
    } else {
      if WritesClass(a) {
        WriteKeepsClaims(s, a);
        WriteKeepsWorkers(s, a);
      } else {
        WorkersKept(s, Next(s, a));
      }
    }
  }

  lemma {:induction false} RunKeepsInv(actions: seq<Action>)
    ensures Inv(Run(START, actions))
    decreases |actions|
  {
    if actions != [] {
      RunKeepsInv(actions[..|actions| - 1]);
      NextKeepsInv(Run(START, actions[..|actions| - 1]), actions[|actions| - 1]);
    }
  }

  // ---------------------------------------------------------------------------
  // Launch against termination.
  // ---------------------------------------------------------------------------

  ghost predicate Gone(s: State, u: Uid) {
    u < s.nextUid && (s.nodeClass.None? || s.nodeClass.value.uid != u)
  }

  ghost predicate Doomed(s: State, u: Uid) {
    Gone(s, u) || (s.nodeClass.Some? && s.nodeClass.value.uid == u && s.nodeClass.value.deleting)
  }

  /** In every run, when an incarnation of the class is gone, no claim that passed its check is
      left and no launch that passed it is under way. */
  lemma GoneMeansQuiet(actions: seq<Action>, u: Uid)
    requires Gone(Run(START, actions), u)
    ensures var s := Run(START, actions);
            NoClaimOf(s, u) && forall id :: id in s.flights ==> s.flights[id] != u
  {
    RunKeepsInv(actions);
  }

  /** Once an incarnation is marked for deletion, no claim passes its check any more. */
  lemma {:induction false} NoLatePass(actions: seq<Action>, i: nat, id: ClaimId, u: Uid)
    requires i <= |actions| && Doomed(Run(START, actions[..i]), u)
    ensures Doomed(Run(START, actions), u)
    ensures (id, u) in Run(START, actions).everPassed ==> (id, u) in Run(START, actions[..i]).everPassed
    decreases |actions|
  {
    if i == |actions| {
      assert actions[..i] == actions;
    } else {
      var before := actions[..|actions| - 1];
      assert before[..i] == actions[..i];
      NoLatePass(before, i, id, u);
      RunKeepsInv(before);
      StaysDoomed(Run(START, before), actions[|actions| - 1], id, u);
    }
  }

  lemma StaysDoomed(s: State, a: Action, id: ClaimId, u: Uid)
    requires Inv(s) && Doomed(s, u)
    ensures Doomed(Next(s, a), u)
    ensures (id, u) in Next(s, a).everPassed ==> (id, u) in s.everPassed
  {
  }

  /** The record of passed checks is complete: a claim in the store, or a launch, that passed
      the check of an incarnation is on it. */
  ghost predicate PassesRecorded(s: State) {
    && (forall id, u :: id in s.claims && u in s.claims[id] ==> (id, u) in s.everPassed)
    && (forall id :: id in s.flights ==> (id, s.flights[id]) in s.everPassed)
  }

  lemma NextKeepsRecord(s: State, a: Action)
    requires PassesRecorded(s)
    ensures PassesRecorded(Next(s, a))
  {
    assert s.everPassed <= Next(s, a).everPassed;
  }

  lemma {:induction false} EveryPassRecorded(actions: seq<Action>)
    ensures PassesRecorded(Run(START, actions))
    decreases |actions|
  {
    if actions != [] {
      EveryPassRecorded(actions[..|actions| - 1]);
      NextKeepsRecord(Run(START, actions[..|actions| - 1]), actions[|actions| - 1]);
    }
  }

  // ---------------------------------------------------------------------------
  // Launches do happen.
  // ---------------------------------------------------------------------------

  /** A launch gets past the check exactly when its claim exists and is not being launched already,
      and the stored class exists, is not being deleted and is ready; then the claim is in flight for
      the stored incarnation. Otherwise nothing changes. */
  lemma LaunchesIff(s: State, id: ClaimId)
    ensures var s' := Next(s, PassCheck(id));
            if id in s.claims && id !in s.flights && s.nodeClass.Some? && !s.nodeClass.value.deleting
               && s.nodeClass.value.ready
            then
              var u := s.nodeClass.value.uid;
              s' == s.(flights := s.flights[id := u], claims := s.claims[id := s.claims[id] + {u}],
                       everPassed := s.everPassed + {(id, u)})
            else s' == s
  {
  }

  /** The same class apart from its version. */
  predicate SameClass(stored: Option<NodeClass>, c: NodeClass) {
    stored.Some? && stored.value == c.(version := stored.value.version)
  }

  /** What others do to the class takes effect whenever it is possible at all. */
  lemma OthersAct(s: State, finalizers: set<string>, f: string)
    requires f != "karpenter.vsphere.com/termination"
    ensures s.nodeClass.None? ==>
              SameClass(Next(s, CreateClass(finalizers)).nodeClass, NodeClass(s.nextUid, 0, false, finalizers, false))
    ensures s.nodeClass.Some? ==>
              var c := s.nodeClass.value;
              && (if c.finalizers == {} then Next(s, DeleteClass).nodeClass.None?
                  else SameClass(Next(s, DeleteClass).nodeClass, c.(deleting := true)))
              && (!c.deleting ==>
                    SameClass(Next(s, AddForeign(f)).nodeClass, c.(finalizers := c.finalizers + {f})))
              && (if c.deleting && c.finalizers <= {f} then Next(s, RemoveForeign(f)).nodeClass.None?
                  else SameClass(Next(s, RemoveForeign(f)).nodeClass, c.(finalizers := c.finalizers - {f})))
  {
    if s.nodeClass.Some? {
      var fs := s.nodeClass.value.finalizers;
      assert fs <= {f} <==> fs - {f} == {};
    }
  }

  /** A worker can give up at any time, and does when the class is gone or its patch is refused. */
  lemma WorkersLetGo(s: State, w: Worker)
    ensures Next(s, GiveUpTermination(w)).terminators == s.terminators[w := Resting]
    ensures Next(s, GiveUpStatus(w)).reconcilers == s.reconcilers[w := Waiting]
    ensures w in s.terminators && s.terminators[w].Cleared? ==> Next(s, RemoveFinalizer(w)).terminators[w] == Resting
    ensures w in s.reconcilers && s.reconcilers[w].Adding? && s.nodeClass.None? ==>
              Next(s, AddFinalizer(w)) == s.(reconcilers := s.reconcilers[w := Waiting])
    ensures w in s.reconcilers && s.reconcilers[w].Reconciling? ==> Next(s, PatchStatus(w)).reconcilers[w] == Waiting
  {
  }

  /** The finalizer patch is refused exactly if the class is being deleted and would get a finalizer
      it does not have; otherwise it gets those of the copy and the provider's own. */
  lemma AddRefusedIff(s: State, w: Worker)
    requires s.nodeClass.Some? && w in s.reconcilers && s.reconcilers[w].Adding?
    ensures var c := s.nodeClass.value;
            var wanted := s.reconcilers[w].copy.finalizers + {"karpenter.vsphere.com/termination"};
            var s' := Next(s, AddFinalizer(w));
            if c.deleting && exists f :: f in wanted && f !in c.finalizers then
              s' == s.(reconcilers := s.reconcilers[w := Waiting])
            else
              && SameClass(s'.nodeClass, c.(finalizers := wanted))
              && s'.reconcilers == s.reconcilers[w := Reconciling(s'.nodeClass.value)]
  {
  }

  /** The steps from a manifest to a launch. */
  function LaunchRun(finalizers: set<string>): seq<Action> {
    [CreateClass(finalizers), CreateClaim(0), ReadForStatus(0), AddFinalizer(0), PatchStatus(0), PassCheck(0)]
  }

  /** The steps from the end of the launch to that of the class. */
  function RemovalRun(): seq<Action> {
    [EndLaunch(0), DeleteClass, DeleteClaim(0), FindTerminating(0), ListClaims(0), RemoveFinalizer(0)]
  }

  lemma RunOneMore(s: State, actions: seq<Action>, n: nat)
    requires n < |actions|
    ensures Run(s, actions[..n + 1]) == Next(Run(s, actions[..n]), actions[n])
  {
    assert actions[..n + 1][..n] == actions[..n];
  }

  lemma RunSix(s: State, a: seq<Action>)
    requires |a| == 6
    ensures Run(s, a) == Next(Next(Next(Next(Next(Next(s, a[0]), a[1]), a[2]), a[3]), a[4]), a[5])
  {
    hide Next;
    assert a[..0] == [] && a[..6] == a;
    RunOneMore(s, a, 0);
    RunOneMore(s, a, 1);
    RunOneMore(s, a, 2);
    RunOneMore(s, a, 3);
    RunOneMore(s, a, 4);
    RunOneMore(s, a, 5);
  }

  /** The stored class of that run when the launch begins: ready, and with the termination finalizer
      besides those of the manifest. */
  lemma ClassGetsReady(finalizers: set<string>)
    ensures var s := Next(Next(Next(Next(Next(START, CreateClass(finalizers)), CreateClaim(0)), ReadForStatus(0)),
                               AddFinalizer(0)), PatchStatus(0));
            && s.nodeClass.Some? && s.nodeClass.value.uid == 0 && !s.nodeClass.value.deleting && s.nodeClass.value.ready
            && s.nodeClass.value.finalizers == finalizers + {TERMINATION}
            && s.claims == map[0 := {}] && s.flights == map[] && s.terminators == map[]
  {
    var s1 := Next(START, CreateClass(finalizers));
    assert s1.nodeClass == Some(NodeClass(0, 0, false, finalizers, false));
    var s3 := Next(Next(s1, CreateClaim(0)), ReadForStatus(0));
    assert s3.nodeClass == s1.nodeClass && s3.claims == map[0 := {}];
    assert TERMINATION in finalizers ==> finalizers + {TERMINATION} == finalizers;
    var s4 := Next(s3, AddFinalizer(0));
    assert s4.nodeClass.Some? && s4.nodeClass.value.finalizers == finalizers + {TERMINATION};
    assert s4.reconcilers[0] == Reconciling(s4.nodeClass.value);
  }

  /** With any finalizers in its manifest a class comes to launch a claim. */
  lemma LaunchIsPossible(finalizers: set<string>)
    ensures var s := Run(START, LaunchRun(finalizers));
            && s.flights == map[0 := 0] && s.claims == map[0 := {0}] && s.terminators == map[]
            && s.nodeClass.Some? && s.nodeClass.value.uid == 0 && !s.nodeClass.value.deleting
            && s.nodeClass.value.finalizers == finalizers + {TERMINATION}
  {
    RunSix(START, LaunchRun(finalizers));
    ClassGetsReady(finalizers);
    var s := Next(Next(Next(Next(Next(START, CreateClass(finalizers)), CreateClaim(0)), ReadForStatus(0)),
                       AddFinalizer(0)), PatchStatus(0));
    hide Next, Run;
    LaunchesIff(s, 0);
    OnlyPass(s.claims, 0);
  }

  lemma OnlyPass(claims: map<ClaimId, set<Uid>>, u: Uid)
    requires claims == map[0 := {}]
    ensures claims[0 := claims[0] + {u}] == map[0 := {u}]
  {
    assert claims[0] + {u} == {u};
  }

  lemma {:induction false} RunConcat(s: State, a: seq<Action>, b: seq<Action>)
    ensures Run(s, a + b) == Run(Run(s, a), b)
    decreases |b|
  {
    if b == [] {
      assert a + b == a;
    } else {
      assert (a + b)[..|a + b| - 1] == a + b[..|b| - 1];
      RunConcat(s, a, b[..|b| - 1]);
    }
  }

  lemma ClaimGoes(s: State)
    requires s.flights == map[0 := 0] && s.claims == map[0 := {0}] && s.nodeClass.Some? && !s.nodeClass.value.deleting
    requires TERMINATION in s.nodeClass.value.finalizers
    ensures var s' := Next(Next(Next(s, EndLaunch(0)), DeleteClass), DeleteClaim(0));
            && s'.claims == map[] && s'.flights == map[]
            && s'.nodeClass.Some? && s'.nodeClass.value.deleting
            && s'.nodeClass.value.finalizers == s.nodeClass.value.finalizers
  {
    var s1 := Next(s, EndLaunch(0));
    assert s1.flights == map[] && s1.nodeClass == s.nodeClass && s1.claims == s.claims;
    var s2 := Next(s1, DeleteClass);
    assert s2.flights == map[] && s2.claims == s.claims;
    assert s2.nodeClass.Some? && s2.nodeClass.value.deleting;
  }

  lemma FinalizerGoes(s: State)
    requires s.claims == map[] && s.nodeClass.Some? && s.nodeClass.value.deleting
    requires TERMINATION in s.nodeClass.value.finalizers
    ensures var s' := Next(Next(Next(s, FindTerminating(0)), ListClaims(0)), RemoveFinalizer(0));
            var left := s.nodeClass.value.finalizers - {TERMINATION};
            && s'.claims == s.claims && s'.flights == s.flights
            && if left == {} then s'.nodeClass == None
               else s'.nodeClass.Some? && s'.nodeClass.value.deleting && s'.nodeClass.value.finalizers == left
  {
    var s1 := Next(s, FindTerminating(0));
    assert s1 == s.(terminators := s.terminators[0 := Found(s.nodeClass.value)]);
    var s2 := Next(s1, ListClaims(0));
    assert s2 == s1.(terminators := s1.terminators[0 := Cleared(s.nodeClass.value)]);
  }

  lemma RemovalFinishes(s: State)
    requires s.flights == map[0 := 0] && s.claims == map[0 := {0}] && s.nodeClass.Some? && !s.nodeClass.value.deleting
    requires TERMINATION in s.nodeClass.value.finalizers
    ensures var s' := Run(s, RemovalRun());
            var left := s.nodeClass.value.finalizers - {TERMINATION};
            && s'.claims == map[] && s'.flights == map[]
            && if left == {} then s'.nodeClass == None
               else s'.nodeClass.Some? && s'.nodeClass.value.deleting && s'.nodeClass.value.finalizers == left
  {
    RunSix(s, RemovalRun());
    hide Next, Run;
    ClaimGoes(s);
    FinalizerGoes(Next(Next(Next(s, EndLaunch(0)), DeleteClass), DeleteClaim(0)));
  }

  /** ... and when its claim is gone, a deleted class goes too, or is left to its foreign finalizers. */
  lemma LifeEnds(finalizers: set<string>)
    ensures var s := Run(START, LaunchRun(finalizers) + RemovalRun());
            var left := finalizers - {TERMINATION};
            && s.claims == map[] && s.flights == map[]
            && if left == {} then s.nodeClass == None
               else s.nodeClass.Some? && s.nodeClass.value.deleting && s.nodeClass.value.finalizers == left
  {
    LaunchIsPossible(finalizers);
    RunConcat(START, LaunchRun(finalizers), RemovalRun());
    hide Run;
    var s := Run(START, LaunchRun(finalizers));
    RemovalFinishes(s);
    assert s.nodeClass.value.finalizers - {TERMINATION} == finalizers - {TERMINATION};
  }

  // ---------------------------------------------------------------------------
  // Foreign finalizers.
  // ---------------------------------------------------------------------------

  /** A finalizer patch that is not a conflict takes away the termination finalizer and nothing
      else, however old the controller's copy is; a conflict changes nothing. */
  lemma RemovalIsExact(actions: seq<Action>, w: Worker)
    requires var s := Run(START, actions); w in s.terminators && s.terminators[w].Cleared?
    ensures var s := Run(START, actions);
            var s' := Next(s, RemoveFinalizer(w));
            if s.nodeClass.Some? && s.nodeClass.value.version == s.terminators[w].copy.version then
              var left := s.nodeClass.value.finalizers - {TERMINATION};
              if left == {} then s'.nodeClass == None
              else
                && s'.nodeClass.Some? && s'.nodeClass.value.finalizers == left
                && s'.nodeClass.value.uid == s.nodeClass.value.uid
            else s'.nodeClass == s.nodeClass
  {
    RunKeepsInv(actions);
    var s := Run(START, actions);
    assert TerminatorInv(s, s.terminators[w]);
  }

  /** What the unlocked patch of the status controller does in a run: the foreign finalizers that
      its copy lacks are lost, those that are only in the copy come back, so they stay as stored
      exactly when they equal those of the copy. They do when the stored version is still that of
      the copy, however many steps were taken since it was read. */
  lemma AddIsExactIff(actions: seq<Action>, w: Worker)
    requires var s := Run(START, actions);
             w in s.reconcilers && s.reconcilers[w].Adding? && s.nodeClass.Some?
             && UnlockedAdd(s.nodeClass.value, s.reconcilers[w].copy).Some?
    ensures var s := Run(START, actions);
            var stored, copied := s.nodeClass.value.finalizers - {TERMINATION}, s.reconcilers[w].copy.finalizers;
            var s' := Next(s, AddFinalizer(w));
            && s'.nodeClass.Some? && TERMINATION in s'.nodeClass.value.finalizers
            && stored - s'.nodeClass.value.finalizers == stored - copied
            && s'.nodeClass.value.finalizers - {TERMINATION} - stored == copied - stored
            && (s'.nodeClass.value.finalizers - {TERMINATION} == stored <==> stored == copied)
            && (s.nodeClass.value.version == s.reconcilers[w].copy.version ==> stored == copied)
  {
    RunKeepsInv(actions);
    var s := Run(START, actions);
    assert ReconcilerInv(s, s.reconcilers[w]);
    var copied := s.reconcilers[w].copy.finalizers;
    assert copied + {TERMINATION} - {TERMINATION} == copied;
    assert s.nodeClass.value.version == s.reconcilers[w].copy.version ==> copied - {TERMINATION} == copied;
  }

  /** It does happen: a finalizer added after the read is lost. */
  lemma AddCanDropForeign(f: string)
    requires f != TERMINATION
    ensures var before := Run(START, [CreateClass({}), ReadForStatus(0), AddForeign(f)]);
            var after := Run(START, [CreateClass({}), ReadForStatus(0), AddForeign(f), AddFinalizer(0)]);
            && before.nodeClass.Some? && f in before.nodeClass.value.finalizers
            && after.nodeClass.Some? && f !in after.nodeClass.value.finalizers
  {
    var a := [CreateClass({}), ReadForStatus(0), AddForeign(f), AddFinalizer(0)];
    assert a[..3][..2] == a[..2] && a[..2][..1] == a[..1] && a[..1][..0] == [];
    var s1 := Run(START, a[..1]);
    assert Run(START, a[..0]) == START && s1 == Next(START, a[0]);
    assert s1.nodeClass == Some(NodeClass(0, 0, false, {}, false));
    var s2 := Run(START, a[..2]);
    assert s2.reconcilers[0] == Adding(s1.nodeClass.value);
    var s3 := Run(START, a[..3]);
    assert s3.nodeClass.Some? && s3.reconcilers == s2.reconcilers && f in s3.nodeClass.value.finalizers;
    assert a[..3] == [CreateClass({}), ReadForStatus(0), AddForeign(f)];
    assert Run(START, a) == Next(s3, a[3]);
  }

  /** ... and one removed after the read comes back. */
  lemma AddCanReviveForeign(f: string)
    requires f != TERMINATION
    ensures var before := Run(START, [CreateClass({f}), ReadForStatus(0), RemoveForeign(f)]);
            var after := Run(START, [CreateClass({f}), ReadForStatus(0), RemoveForeign(f), AddFinalizer(0)]);
            && before.nodeClass.Some? && f !in before.nodeClass.value.finalizers
            && after.nodeClass.Some? && f in after.nodeClass.value.finalizers
  {
    var a := [CreateClass({f}), ReadForStatus(0), RemoveForeign(f), AddFinalizer(0)];
    assert a[..3] == [CreateClass({f}), ReadForStatus(0), RemoveForeign(f)];
    assert a[..3][..2] == a[..2] && a[..2][..1] == a[..1] && a[..1][..0] == [];
    var s1 := Run(START, a[..1]);
    assert Run(START, a[..0]) == START && s1 == Next(START, a[0]);
    assert s1.nodeClass == Some(NodeClass(0, 0, false, {f}, false));
    var s2 := Run(START, a[..2]);
    assert s2.reconcilers[0] == Adding(s1.nodeClass.value);
    var s3 := Run(START, a[..3]);
    assert s3.nodeClass.Some? && s3.nodeClass.value.finalizers == {} && s3.reconcilers == s2.reconcilers;
    assert Run(START, a) == Next(s3, a[3]);
  }

  // ---------------------------------------------------------------------------
  // The two reconcilers as they run, between the moments at which others can act.
  // ---------------------------------------------------------------------------

  datatype Result = Done | RequeueAfterMinutes(minutes: nat) | RequeueNow | Failed

  /** What goes wrong with the calls of a reconcile: the list fails, the patch is refused for a
      reason of its own, or it takes effect and the answer is lost. */
  datatype Fault = NoFault | ListFails | PatchRefused | PatchUnacknowledged

  /** The API server refuses one of the two patches of the status controller for a reason of its own. */
  datatype StatusFault = Smooth | AddFails | StatusFails

  /** What the version reconciler makes of a ready status: it fails, or it leaves the status as it is,
      or it changes the version or the observed generation. */
  datatype Discovery = NoVersion | SameStatus | OtherStatus

  predicate ToFinalize(copy: NodeClass) {
    copy.deleting && TERMINATION in copy.finalizers
  }

  /** The finalizer patch of the termination controller goes out and takes effect. */
  predicate TakesFinalizerOff(current: Option<NodeClass>, claims: set<ClaimId>, copy: NodeClass, fault: Fault) {
    && ToFinalize(copy) && claims == {} && !fault.ListFails? && !fault.PatchRefused?
    && current.Some? && current.value.version == copy.version
  }

  /** What is stored after the first half of the status controller: its finalizer patch, where the
      copy lacks the finalizer. */
  function FinalizerAdded(
    current: Option<NodeClass>, copy: NodeClass, f: StatusFault, version: Version): Option<NodeClass>
  {
    if TERMINATION in copy.finalizers || AddRefused(current, copy, f) then current
    else Some(UnlockedAdd(current.value, copy).value.(version := version))
  }

  /** The finalizer patch was needed and refused. */
  predicate AddRefused(current: Option<NodeClass>, copy: NodeClass, f: StatusFault) {
    TERMINATION !in copy.finalizers && (f.AddFails? || current.None? || UnlockedAdd(current.value, copy).None?)
  }

  /** The copy that the second half works from. */
  function CopyAfterAdd(current: Option<NodeClass>, copy: NodeClass, f: StatusFault, version: Version): NodeClass
    requires !AddRefused(current, copy, f)
  {
    if TERMINATION in copy.finalizers then copy else FinalizerAdded(current, copy, f, version).value
  }

  /** The second half has a status to write. */
  predicate StatusChanges(copy: NodeClass, d: Discovery) {
    !d.NoVersion? && (!copy.ready || d.OtherStatus?)
  }

  /** The status patch goes out and takes effect. */
  predicate WritesStatus(
    current: Option<NodeClass>, copy: NodeClass, d: Discovery, f: StatusFault, version: Version)
  {
    && !AddRefused(current, copy, f) && !f.StatusFails?
    && StatusChanges(CopyAfterAdd(current, copy, f, version), d)
    && current.Some?
    && FinalizerAdded(current, copy, f, version).value.version == CopyAfterAdd(current, copy, f, version).version
  }

  /** The stored objects as the two controllers meet them. Whatever others do happens between
      two calls of these methods, so the copies passed in may be out of date. */
  class Cluster {
    var nodeClass: Option<NodeClass>
    var claims: set<ClaimId>
    var nextVersion: Version

    constructor (nodeClass: Option<NodeClass>, claims: set<ClaimId>, nextVersion: Version)
      ensures this.nodeClass == nodeClass && this.claims == claims && this.nextVersion == nextVersion
    {
      this.nodeClass := nodeClass;
      this.claims := claims;
      this.nextVersion := nextVersion;
    }

    /** The termination controller: waits while claims exist, then takes the finalizer off
        under optimistic lock; a class that is gone by then is no error. */
    method ReconcileTermination(copy: NodeClass, fault: Fault) returns (r: Result)
      modifies this`nodeClass, this`nextVersion
      ensures r == RequeueAfterMinutes(10) <==> ToFinalize(copy) && !fault.ListFails? && claims != {}
      ensures r == RequeueNow <==>
                && ToFinalize(copy) && fault !in {ListFails, PatchRefused} && claims == {}
                && old(nodeClass).Some? && old(nodeClass).value.version != copy.version
      ensures r == Failed <==>
                && ToFinalize(copy)
                && (fault.ListFails?
                    || (claims == {} && fault.PatchRefused?)
                    || (fault.PatchUnacknowledged? && TakesFinalizerOff(old(nodeClass), claims, copy, fault)))
      ensures r.RequeueAfterMinutes? ==> r.minutes == 10
      ensures nodeClass == if TakesFinalizerOff(old(nodeClass), claims, copy, fault)
                           then LockedRemove(old(nodeClass), copy, old(nextVersion)) else old(nodeClass)
      ensures nextVersion == old(nextVersion) + if TakesFinalizerOff(old(nodeClass), claims, copy, fault) then 1 else 0
    {
      if !copy.deleting || TERMINATION !in copy.finalizers {
        return Done;
      }
      if fault.ListFails? {
        return Failed;
      }
      if claims != {} {
        return RequeueAfterMinutes(10);
      }
      if fault.PatchRefused? {
        return Failed;
      }
      if nodeClass.None? {
        return Done;
      }
      var c := nodeClass.value;
      if c.version != copy.version {
        return RequeueNow;
      }
      c := c.(finalizers := copy.finalizers - {TERMINATION});
      if c.deleting && c.finalizers == {} {
        nodeClass := None;
      } else {
        nodeClass := Some(c.(version := nextVersion));
      }
      nextVersion := nextVersion + 1;
      return if fault.PatchUnacknowledged? then Failed else Done;
    }

    /** The status controller: finalizer first, then the version reconciler, then the status. A
        copy whose version is still stored is what is stored. Nothing is sent for a status that
        does not change, and a class that is gone by the status patch is no error. */
    method ReconcileStatus(copy: NodeClass, d: Discovery, f: StatusFault) returns (r: Result)
      requires nodeClass.Some? && nodeClass.value.version == copy.version ==> nodeClass.value == copy
      requires nodeClass.Some? ==> nodeClass.value.version < nextVersion
      modifies this`nodeClass, this`nextVersion
      ensures r == Done || r == Failed
      ensures r == Failed <==>
                || AddRefused(old(nodeClass), copy, f)
                || d.NoVersion?
                || ((old(nodeClass).Some? || f.StatusFails?)
                    && StatusChanges(CopyAfterAdd(old(nodeClass), copy, f, old(nextVersion)), d)
                    && !WritesStatus(old(nodeClass), copy, d, f, old(nextVersion)))
      ensures var added := FinalizerAdded(old(nodeClass), copy, f, old(nextVersion));
              if WritesStatus(old(nodeClass), copy, d, f, old(nextVersion)) then
                && nodeClass.Some? && nodeClass == Some(added.value.(ready := true, version := nodeClass.value.version))
                && old(nextVersion) <= nodeClass.value.version < nextVersion
                && TERMINATION in nodeClass.value.finalizers
              else nodeClass == added
      ensures nodeClass.Some? ==> nodeClass.value.version < nextVersion
    {
      var mine := copy;
      if TERMINATION !in copy.finalizers {
        if f.AddFails? || nodeClass.None? {
          return Failed;
        }
        var added := UnlockedAdd(nodeClass.value, copy);
        if added.None? {
          return Failed;
        }
        mine := added.value.(version := nextVersion);
        nodeClass := Some(mine);
        nextVersion := nextVersion + 1;
      }
      if d.NoVersion? {
        return Failed;
      }
      if mine.ready && d.SameStatus? {
        return Done;
      }
      if f.StatusFails? {
        return Failed;
      }
      if nodeClass.None? {
        return Done;
      }
      if nodeClass.value.version != mine.version {
        return Failed;
      }
      nodeClass := Some(nodeClass.value.(ready := true, version := nextVersion));
      nextVersion := nextVersion + 1;
      return Done;
    }
  }

  /** Without faults `ReconcileTermination` is the list step and the removal step in a row. */
  lemma TerminationIsTwoSteps(s: State, w: Worker)
    requires w in s.terminators && s.terminators[w].Found? && ToFinalize(s.terminators[w].copy)
    ensures var copy := s.terminators[w].copy;
            Next(Next(s, ListClaims(w)), RemoveFinalizer(w)).nodeClass ==
            if TakesFinalizerOff(s.nodeClass, s.claims.Keys, copy, NoFault) then
              LockedRemove(s.nodeClass, copy, s.nextVersion)
            else
              s.nodeClass
  {
  }

  /** ... and `ReconcileStatus` is the finalizer step and, if a status is written, the status step. */
  lemma StatusIsTwoSteps(s: State, w: Worker, copy: NodeClass, d: Discovery, f: StatusFault)
    requires !f.AddFails? && w in s.reconcilers
    requires s.reconcilers[w] == if TERMINATION in copy.finalizers then Reconciling(copy) else Adding(copy)
    ensures var first := Next(s, AddFinalizer(w));
            && first.nodeClass == FinalizerAdded(s.nodeClass, copy, f, s.nextVersion)
            && (WritesStatus(s.nodeClass, copy, d, f, s.nextVersion) ==>
                  Next(first, PatchStatus(w)).nodeClass ==
                  Some(first.nodeClass.value.(ready := true, version := first.nextVersion)))
  {
  }
}
