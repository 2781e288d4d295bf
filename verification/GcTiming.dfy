/** Garbage collection against launches, in time: the cloud list, the claim list, each worker's
    look at the clock and each delete happen at moments of their own. */
module GcTiming {
  import opened Prelude
  import opened GarbageCollection

  type ClaimId = nat

  /** A machine of some cluster user, or launched for a claim. `created` is the creation date
      it was cloned with. */
  datatype Vm = Vm(created: Time, owner: Option<ClaimId>)

  /** The lists of a pass under way: `atList` are the claims the claim list returned. */
  datatype Pc =
    | Idle
    | Listing(seen: seq<Entry>)
    | Working(managed: seq<Entry>, resolved: set<string>, listedAt: Time, atList: set<ClaimId>, looked: set<nat>,
        doomed: set<nat>)

  /** `claims` maps a claim to its persisted provider id, `vms` are the machines that exist.
      `born` remembers every machine ever launched, `collected` those that GC deleted. */
  datatype State = State(
    now: Time,
    vms: set<string>,
    claims: map<ClaimId, Option<string>>,
    usedClaims: set<ClaimId>,
    pc: Pc,
    born: map<string, Vm>,
    collected: set<string>)

  datatype Action =
    | Advance(span: Time)
    | CreateClaim(id: ClaimId)
    | Launch(vm: string, created: Time, owner: Option<ClaimId>)
    | Persist(id: ClaimId, vm: string)
    | DeleteClaim(id: ClaimId)
    | DestroyVm(vm: string)
    | BeginPass
    | SeeVm(vm: string, deleting: bool)
    | ListClaims
    | Look(worker: nat)
    | Collect(worker: nat)
    | EndPass

  /** The two bounds: a claim's provider id is persisted within `persistence` of its machine's
      creation date, and all workers have looked within `delay` of the claim list. */
  datatype Bounds = Bounds(persistence: nat, delay: nat)

  ghost predicate OwnedBy(s: State, vm: string, id: ClaimId) {
    vm in s.born && s.born[vm].owner == Some(id)
  }

  ghost predicate Runs(s: State, vm: string, id: ClaimId) {
    vm in s.vms && OwnedBy(s, vm, id)
  }

  ghost predicate PersistedInTime(b: Bounds, s: State, now: Time) {
    forall vm, id :: Runs(s, vm, id) && id in s.claims && s.claims[id].None? ==>
        now <= s.born[vm].created + b.persistence
  }

  ghost predicate LookedInTime(b: Bounds, s: State, now: Time) {
    s.pc.Working? && (exists i :: 0 <= i < |s.pc.managed| && i !in s.pc.looked) ==> now <= s.pc.listedAt + b.delay
  }

  ghost predicate Launchable(b: Bounds, s: State, vm: string, created: Time, owner: Option<ClaimId>) {
    && vm != "" && vm !in s.born && created <= s.now
    && (owner.Some? ==>
          && owner.value in s.claims && s.claims[owner.value].None?
          && (forall v :: v in s.vms ==> !Runs(s, v, owner.value))
          && s.now <= created + b.persistence)
  }

  ghost function IdsOf(claims: map<ClaimId, Option<string>>): set<string> {
    set id | id in claims && claims[id].Some? && claims[id].value != "" :: claims[id].value
  }

  /** An action that is not possible in `s` changes nothing; time does not pass a deadline. */
  ghost function Next(b: Bounds, s: State, a: Action): State {
    match a
    case Advance(span) =>
      if span < 0 || !PersistedInTime(b, s, s.now + span) || !LookedInTime(b, s, s.now + span) then s
      else s.(now := s.now + span)
    case CreateClaim(id) =>
      if id in s.usedClaims then s
      else s.(claims := s.claims[id := None], usedClaims := s.usedClaims + {id})
    case Launch(vm, created, owner) =>
      if !Launchable(b, s, vm, created, owner) then s
      else s.(vms := s.vms + {vm}, born := s.born[vm := Vm(created, owner)])
    case Persist(id, vm) =>
      if id !in s.claims || !Runs(s, vm, id) then s else s.(claims := s.claims[id := Some(vm)])
    case DeleteClaim(id) =>
      s.(claims := s.claims - {id})
    case DestroyVm(vm) =>
      s.(vms := s.vms - {vm})
    case BeginPass =>
      if s.pc.Idle? then s.(pc := Listing([])) else s
    case SeeVm(vm, deleting) =>
      if !s.pc.Listing? || vm !in s.vms || vm !in s.born then s
      else s.(pc := Listing(s.pc.seen + [Entry(vm, s.born[vm].created, deleting)]))
    case ListClaims =>
      if !s.pc.Listing? then s
      else s.(pc := Working(Managed(s.pc.seen), IdsOf(s.claims), s.now, s.claims.Keys, {}, {}))
    case Look(i) =>
      if !s.pc.Working? || i >= |s.pc.managed| || i in s.pc.looked then s
      else s.(pc := s.pc.(looked := s.pc.looked + {i},
                          doomed := if Collectable(s.pc.resolved, s.pc.managed[i], s.now)
                                    then s.pc.doomed + {i} else s.pc.doomed))
    case Collect(i) =>
      if !s.pc.Working? || i !in s.pc.doomed || i >= |s.pc.managed| || s.pc.managed[i].id !in s.vms then s
      else s.(vms := s.vms - {s.pc.managed[i].id}, collected := s.collected + {s.pc.managed[i].id})
    case EndPass =>
      s.(pc := Idle)
  }

  ghost function Run(b: Bounds, actions: seq<Action>): State
    decreases |actions|
  {
    if actions == [] then START
    else Next(b, Run(b, actions[..|actions| - 1]), actions[|actions| - 1])
  }

  const START := State(0, {}, map[], {}, Idle, map[], {})

  /** No claim that still exists has lost its machine to garbage collection. */
  ghost predicate Safe(s: State) {
    forall vm, id :: vm in s.collected && OwnedBy(s, vm, id) ==> id !in s.claims
  }

  // ---------------------------------------------------------------------------

  ghost predicate KnownEntries(s: State, entries: seq<Entry>) {
    forall e :: e in entries ==> e.id in s.born && e.created == s.born[e.id].created
  }

  ghost predicate ClaimsInv(b: Bounds, s: State) {
    && PersistedInTime(b, s, s.now)
    && s.vms <= s.born.Keys
    && (forall id :: id in s.claims ==> id in s.usedClaims)
    && (forall vm, id :: OwnedBy(s, vm, id) ==> id in s.usedClaims && vm != "")
    && (forall vm, v, id :: Runs(s, vm, id) && Runs(s, v, id) && id in s.claims ==> vm == v)
    && (forall vm, id :: Runs(s, vm, id) && id in s.claims && s.claims[id].Some? ==> s.claims[id].value == vm)
  }

  /** What a pass knows about the owner of a listed machine that still runs. */
  ghost predicate EntryInv(b: Bounds, s: State, e: Entry, id: ClaimId)
    requires s.pc.Working?
  {
    && (id in s.claims ==> id in s.pc.atList)
    && (id in s.pc.atList ==> e.id in s.pc.resolved || s.pc.listedAt <= e.created + b.persistence)
  }

  ghost predicate PassInv(b: Bounds, s: State) {
    match s.pc
    case Idle => true
    case Listing(seen) => KnownEntries(s, seen)
    case Working(managed, _, listedAt, atList, _, doomed) =>
      && KnownEntries(s, managed)
      && atList <= s.usedClaims
      && LookedInTime(b, s, s.now)
      && (forall e, id :: e in managed && Runs(s, e.id, id) ==> EntryInv(b, s, e, id))
      && (forall i, id :: i in doomed && i < |managed| && Runs(s, managed[i].id, id) ==> id !in atList)
  }

  ghost predicate Inv(b: Bounds, s: State) {
    && ClaimsInv(b, s) && PassInv(b, s)
    && (forall vm, id :: vm in s.collected && OwnedBy(s, vm, id) ==> id !in s.claims)
    && s.collected <= s.born.Keys
  }

  lemma NextKeepsClaims(b: Bounds, s: State, a: Action)
    requires Inv(b, s)
    ensures ClaimsInv(b, Next(b, s, a))
  {
    var s' := Next(b, s, a);
    assert forall vm, id :: OwnedBy(s', vm, id) ==>
        OwnedBy(s, vm, id) || a == Launch(vm, s'.born[vm].created, Some(id));
    forall vm, id | Runs(s', vm, id) && id in s'.claims
      ensures s'.claims[id].None? ==> s'.now <= s'.born[vm].created + b.persistence
      ensures s'.claims[id].Some? ==> s'.claims[id].value == vm
    {
      assert OwnedBy(s', vm, id);
      assert vm in s.vms ==> Runs(s, vm, id);
    }
    forall vm, v, id | Runs(s', vm, id) && Runs(s', v, id) && id in s'.claims ensures vm == v {
      assert vm in s.vms ==> Runs(s, vm, id);
      assert v in s.vms ==> Runs(s, v, id);
    }
  }

  /** The pass keeps what it knows when the world moves on without it. */
  lemma WorldKeepsPass(b: Bounds, s: State, a: Action)
    requires Inv(b, s)
    requires a.CreateClaim? || a.Launch? || a.Persist? || a.DeleteClaim? || a.DestroyVm? || a.Advance? || a.Collect?
    ensures PassInv(b, Next(b, s, a))
  {
    var s' := Next(b, s, a);
    assert s'.pc == s.pc;
    if s.pc.Working? {
      forall e, id | e in s.pc.managed && Runs(s', e.id, id) ensures Runs(s, e.id, id) && EntryInv(b, s', e, id) {
        assert e.id in s.born;
        assert OwnedBy(s', e.id, id) && OwnedBy(s, e.id, id);
        assert id in s.usedClaims && Runs(s, e.id, id) && EntryInv(b, s, e, id);
      }
      forall i, id | i in s.pc.doomed && i < |s.pc.managed| && Runs(s', s.pc.managed[i].id, id)
        ensures id !in s.pc.atList
      {
        assert s.pc.managed[i] in s.pc.managed;
        assert Runs(s, s.pc.managed[i].id, id);
      }
    }
  }

  lemma ListKeepsPass(b: Bounds, s: State)
    requires Inv(b, s)
    ensures PassInv(b, Next(b, s, ListClaims))
  {
    var s' := Next(b, s, ListClaims);
    if s.pc.Listing? {
      forall e, id | e in s'.pc.managed && Runs(s', e.id, id) ensures EntryInv(b, s', e, id) {
        assert Runs(s, e.id, id);
      }
    }
  }

  /** Where the two bounds meet: a worker that finds a machine old enough looks too late for the
      owner's id to have been missing from the claim list. */
  lemma LookKeepsPass(b: Bounds, s: State, i: nat)
    requires Inv(b, s) && b.persistence + b.delay <= MIN_AGE
    ensures PassInv(b, Next(b, s, Look(i)))
  {
    var s' := Next(b, s, Look(i));
    if s.pc.Working? && i < |s.pc.managed| && i !in s.pc.looked {
      var e := s.pc.managed[i];
      assert e in s.pc.managed;
      forall id | Runs(s, e.id, id) && Collectable(s.pc.resolved, e, s.now) ensures id !in s.pc.atList {
        assert EntryInv(b, s, e, id);
      }
      forall f, id | f in s.pc.managed && Runs(s', f.id, id) ensures EntryInv(b, s', f, id) {
        assert Runs(s, f.id, id) && EntryInv(b, s, f, id);
      }
      forall j, id | j in s'.pc.doomed && j < |s.pc.managed| && Runs(s', s.pc.managed[j].id, id)
        ensures id !in s.pc.atList
      {
        assert Runs(s, s.pc.managed[j].id, id);
      }
    }
  }

  lemma NextKeepsPass(b: Bounds, s: State, a: Action)
    requires Inv(b, s) && b.persistence + b.delay <= MIN_AGE
    ensures PassInv(b, Next(b, s, a))
  {
    match a
    case Look(i) => LookKeepsPass(b, s, i);
    case ListClaims => ListKeepsPass(b, s);
    case BeginPass =>
    case SeeVm(_, _) =>
    case EndPass =>
    case _ => WorldKeepsPass(b, s, a);
  }

  lemma NextKeepsInv(b: Bounds, s: State, a: Action)
    requires Inv(b, s) && b.persistence + b.delay <= MIN_AGE
    ensures Inv(b, Next(b, s, a))
  {
    NextKeepsClaims(b, s, a);
    NextKeepsPass(b, s, a);
    var s' := Next(b, s, a);
    forall vm, id | vm in s'.collected && OwnedBy(s', vm, id) ensures id !in s'.claims {
      assert OwnedBy(s, vm, id) && id in s.usedClaims;
      if vm !in s.collected {
        assert s.pc.managed[a.worker] in s.pc.managed && Runs(s, vm, id) && EntryInv(b, s, s.pc.managed[a.worker], id);
      }
    }
  }

  lemma {:induction false} RunKeepsInv(b: Bounds, actions: seq<Action>)
    requires b.persistence + b.delay <= MIN_AGE
    ensures Inv(b, Run(b, actions))
    decreases |actions|
  {
    if actions != [] {
      RunKeepsInv(b, actions[..|actions| - 1]);
      NextKeepsInv(b, Run(b, actions[..|actions| - 1]), actions[|actions| - 1]);
    }
  }

  /** The machine that worker `i` is about to delete belongs to no claim of the claim list, nor
      to any claim that exists now. */
  lemma DoomedIsNobodys(b: Bounds, actions: seq<Action>, i: nat, id: ClaimId)
    requires b.persistence + b.delay <= MIN_AGE
    requires var s := Run(b, actions);
             s.pc.Working? && i in s.pc.doomed && i < |s.pc.managed| && Runs(s, s.pc.managed[i].id, id)
    ensures var s := Run(b, actions); id !in s.pc.atList && id !in s.claims
  {
    RunKeepsInv(b, actions);
    var s := Run(b, actions);
    assert s.pc.managed[i] in s.pc.managed && EntryInv(b, s, s.pc.managed[i], id);
  }

  /** The run that goes wrong when the bounds add up to more than five minutes. */
  ghost function LateRun(b: Bounds): seq<Action> {
    [CreateClaim(0), Launch("vsphere://a", 0, Some(0)), Advance(b.persistence), BeginPass, SeeVm("vsphere://a", false),
     ListClaims, Persist(0, "vsphere://a"), Advance(b.delay), Look(0), Collect(0)]
  }

  lemma RunPrefix(b: Bounds, actions: seq<Action>, n: nat)
    requires n < |actions|
    ensures Run(b, actions[..n + 1]) == Next(b, Run(b, actions[..n]), actions[n])
  {
    assert actions[..n + 1][..n] == actions[..n];
  }

  /** The state of `LateRun` when its pass has listed the machine. */
  ghost function SeenLate(b: Bounds): State {
    var e := Entry("vsphere://a", 0, false);
    State(b.persistence, {e.id}, map[0 := None], {0}, Listing([e]), map[e.id := Vm(0, Some(0))], {})
  }

  /** The state of `LateRun` when the machine is launched. */
  ghost function Launched(b: Bounds): State {
    State(0, {"vsphere://a"}, map[0 := None], {0}, Idle, map["vsphere://a" := Vm(0, Some(0))], {})
  }

  lemma LateRunLaunches(b: Bounds)
    ensures Run(b, LateRun(b)[..2]) == Launched(b)
  {
    var a := LateRun(b);
    assert a[..0] == [];
    RunPrefix(b, a, 0);
    RunPrefix(b, a, 1);
  }

  lemma LateRunBegins(b: Bounds)
    ensures Run(b, LateRun(b)[..5]) == SeenLate(b)
  {
    var a := LateRun(b);
    LateRunLaunches(b);
    RunPrefix(b, a, 2);
    RunPrefix(b, a, 3);
    RunPrefix(b, a, 4);
    assert Run(b, a[..4]) == Launched(b).(now := b.persistence, pc := Listing([]));
    assert [] + [Entry("vsphere://a", 0, false)] == [Entry("vsphere://a", 0, false)];
  }

  lemma ListsLate(b: Bounds)
    ensures Next(b, SeenLate(b), ListClaims)
            == SeenLate(b).(pc := Working([Entry("vsphere://a", 0, false)], {}, b.persistence, {0}, {}, {}))
  {
    var e := Entry("vsphere://a", 0, false);
    assert Managed([e]) == [e];
    assert SeenLate(b).claims.Keys == {0} && IdsOf(SeenLate(b).claims) == {};
  }

  lemma LateRunGoesOn(b: Bounds)
    ensures var e := Entry("vsphere://a", 0, false);
            Run(b, LateRun(b)[..8]) == SeenLate(b).(now := b.persistence + b.delay, claims := map[0 := Some(e.id)],
                                                    pc := Working([e], {}, b.persistence, {0}, {}, {}))
  {
    var a := LateRun(b);
    var e := Entry("vsphere://a", 0, false);
    LateRunBegins(b);
    RunPrefix(b, a, 5);
    ListsLate(b);
    RunPrefix(b, a, 6);
    assert Run(b, a[..7]) == Run(b, a[..6]).(claims := map[0 := Some(e.id)]);
    RunPrefix(b, a, 7);
  }

  lemma LateRunIsUnsafe(b: Bounds)
    requires b.persistence + b.delay > MIN_AGE
    ensures !Safe(Run(b, LateRun(b)))
  {
    var a := LateRun(b);
    LateRunGoesOn(b);
    RunPrefix(b, a, 8);
    RunPrefix(b, a, 9);
    assert a[..10] == a;
    assert OwnedBy(Run(b, a), "vsphere://a", 0);
  }

  /** Garbage collection is safe in every run exactly when the two bounds add up to at most
      the five minutes it waits; five minutes to persist an id are too long as soon as the
      workers take any time at all to look. */
  lemma SafeIffBounded(b: Bounds)
    ensures (forall actions :: Safe(Run(b, actions))) <==> b.persistence + b.delay <= 300_000_000_000
  {
    if b.persistence + b.delay <= MIN_AGE {
      forall actions ensures Safe(Run(b, actions)) { RunKeepsInv(b, actions); }
    } else {
      LateRunIsUnsafe(b);
    }
  }

  // ---------------------------------------------------------------------------
  // Every step takes effect.
  // ---------------------------------------------------------------------------

  /** Machines that were collected are gone for good: no id is launched twice. */
  lemma {:induction false} CollectedAreGone(b: Bounds, actions: seq<Action>)
    ensures var s := Run(b, actions);
            s.vms <= s.born.Keys && s.collected <= s.born.Keys && s.collected !! s.vms
    decreases |actions|
  {
    if actions != [] {
      CollectedAreGone(b, actions[..|actions| - 1]);
    }
  }

  /** Claims and machines can go, and a pass can end, at any time; a worker whose look finds its entry
      collectable can take the machine away as long as it exists. */
  lemma StepsAct(b: Bounds, s: State, id: ClaimId, vm: string, i: nat)
    ensures Next(b, s, DeleteClaim(id)) == s.(claims := s.claims - {id})
    ensures Next(b, s, DestroyVm(vm)) == s.(vms := s.vms - {vm})
    ensures Next(b, s, EndPass) == s.(pc := Idle)
    ensures s.pc.Working? && i < |s.pc.managed| && i !in s.pc.looked ==>
              var e := s.pc.managed[i];
              var s' := Next(b, s, Look(i));
              && s'.pc.Working? && s'.pc.looked == s.pc.looked + {i}
              && (e.id !in s.pc.resolved && s.now - e.created > 300_000_000_000 && e.id in s.vms ==>
                    var s'' := Next(b, s', Collect(i));
                    s''.vms == s.vms - {e.id} && s''.collected == s.collected + {e.id})
  {
  }
}
