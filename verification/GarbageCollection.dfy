/** One garbage collection pass: parallel workers that delete machines and nodes from a shared
    cluster, an error slot each, and when the interleaving of their calls matters. */
module GarbageCollection {
  import opened Prelude

  /** Nanoseconds, as in Go's time package. */
  type Time = int

  const SECOND := 1_000_000_000
  const MIN_AGE := 300 * SECOND

  /** A claim made from a listed cloud instance. */
  datatype Entry = Entry(id: string, created: Time, deleting: bool)

  datatype Node = Node(name: string, providerId: string)

  /** What becomes of a call that changes something: it gets through, it is refused for a reason of
      its own, or its answer is lost, which is an error to the caller although it took effect. */
  datatype Call = Ok | Refused | Unacknowledged

  /** The calls of one worker: looking the machine up, powering it off, destroying it, and deleting
      the node. */
  datatype Calls = Calls(lookupGetsThrough: bool, powerOff: Call, destroy: Call, deleteNode: Call)

  /** The test every worker makes, at the moment it makes it. */
  predicate Collectable(resolved: set<string>, e: Entry, now: Time) {
    e.id !in resolved && now - e.created > MIN_AGE
  }

  function Managed(retrieved: seq<Entry>): (m: seq<Entry>)
    ensures |m| <= |retrieved|
    ensures forall e :: e in m <==> e in retrieved && !e.deleting
  {
    if retrieved == [] then []
    else if retrieved[0].deleting then Managed(retrieved[1..])
    else [retrieved[0]] + Managed(retrieved[1..])
  }

  lemma ManagedHead(e: Entry, b: seq<Entry>)
    ensures Managed([e] + b) == (if e.deleting then [] else [e]) + Managed(b)
  {
    assert ([e] + b)[1..] == b;
  }

  /** They keep their order and their repetitions. */
  lemma {:induction false} ManagedConcat(a: seq<Entry>, b: seq<Entry>)
    ensures Managed(a + b) == Managed(a) + Managed(b)
  {
    if a == [] {
      assert a + b == b;
    } else {
      var e, rest := a[0], a[1..];
      ManagedConcat(rest, b);
      ManagedHead(e, rest);
      ManagedHead(e, rest + b);
      hide Managed;
      Regroup([e], rest, b);
      Regroup(if e.deleting then [] else [e], Managed(rest), Managed(b));
      assert a == [e] + rest;
    }
  }

  lemma Regroup(a: seq<Entry>, b: seq<Entry>, c: seq<Entry>)
    ensures a + b + c == a + (b + c)
  {
  }

  /** Provider ids of claims that have one. */
  function Resolved(claims: seq<string>): (r: set<string>)
    ensures forall id :: id in r <==> id in claims && id != ""
  {
    set id | id in claims && id != ""
  }

  /** The first listed node with a provider id, which is the one to delete. */
  function FindNode(nodes: seq<Node>, id: string): (n: Option<Node>)
    ensures n.None? <==> forall m :: m in nodes ==> m.providerId != id
    ensures n.Some? ==> n.value in nodes && n.value.providerId == id
  {
    if nodes == [] then None
    else if nodes[0].providerId == id then Some(nodes[0])
    else FindNode(nodes[1..], id)
  }

  /** What the pass works with: the lists, the moment at which each worker looks at the clock, and
      what becomes of its calls. */
  datatype Pass = Pass(
    managed: seq<Entry>, resolved: set<string>, nodes: seq<Node>, clock: seq<Time>, calls: seq<Calls>)
  {
    predicate Valid() {
      |clock| == |calls| == |managed|
    }

    predicate Collects(i: nat)
      requires Valid() && i < |managed|
    {
      Collectable(resolved, managed[i], clock[i])
    }

    /** Worker `i` asks the cloud for its machine and gets an answer. */
    predicate Looks(i: nat)
      requires Valid() && i < |managed|
    {
      Collects(i) && calls[i].lookupGetsThrough
    }

    /** Worker `i` can take the machine away: it asks for it, and both calls take effect. */
    predicate TakesAway(i: nat)
      requires Valid() && i < |managed|
    {
      Looks(i) && calls[i].powerOff.Ok? && !calls[i].destroy.Refused?
    }

    /** The node that worker `i` would delete, by name. */
    function NodeOf(i: nat): Option<string>
      requires i < |managed|
    {
      match FindNode(nodes, managed[i].id)
      case None => None
      case Some(node) => Some(node.name)
    }
  }

  // ---------------------------------------------------------------------------
  // The workers' calls, one after the other.
  // ---------------------------------------------------------------------------

  /** What is there when the workers begin: machines by provider id, those of them that are powered
      on, and nodes by name. An id names one machine. */
  datatype Stock = Stock(vms: set<string>, on: set<string>, nodes: set<string>)
  {
    predicate Valid() {
      on <= vms
    }
  }

  /** How far a worker is: it has not asked, it has found its machine, powered it off, destroyed it,
      or come to an end. */
  datatype Phase = Waiting | Found | Off | OnNode | Finished

  /** The cluster and the workers between two calls. The last three record who found, powered off and
      destroyed a machine; no step depends on them. */
  datatype World = World(
    vms: set<string>,
    on: set<string>,
    nodes: set<string>,
    phase: seq<Phase>,
    errs: seq<bool>,
    found: set<nat>,
    offBy: map<string, nat>,
    removedBy: map<string, nat>)
  {
    function Ended(i: nat, failed: bool): World
      requires i < |phase| == |errs|
    {
      this.(phase := phase[i := Finished], errs := if failed then errs[i := true] else errs)
    }

    function At(i: nat, next: Phase): World
      requires i < |phase|
    {
      this.(phase := phase[i := next])
    }
  }

  function Start(p: Pass, c: Stock): World {
    World(c.vms, c.on, c.nodes, seq(|p.managed|, _ => Waiting), seq(|p.managed|, _ => false), {}, map[], map[])
  }

  predicate Fits(p: Pass, w: World) {
    p.Valid() && |w.phase| == |w.errs| == |p.managed|
  }

  /** A machine that is not found is no error, but it ends the worker. */
  function LookUp(p: Pass, w: World, i: nat): World
    requires Fits(p, w) && i < |p.managed|
  {
    if !p.Collects(i) then w.Ended(i, false)
    else if !p.calls[i].lookupGetsThrough then w.Ended(i, true)
    else if p.managed[i].id !in w.vms then w.Ended(i, false)
    else w.At(i, Found).(found := w.found + {i})
  }

  /** Powering off fails if the machine is off or gone by now. */
  function PowerOff(p: Pass, w: World, i: nat): World
    requires Fits(p, w) && i < |p.managed|
  {
    var id, call := p.managed[i].id, p.calls[i].powerOff;
    if call.Refused? || id !in w.on then w.Ended(i, true)
    else
      var off := w.(on := w.on - {id}, offBy := w.offBy[id := i]);
      if call.Ok? then off.At(i, Off) else off.Ended(i, true)
  }

  /** Destroying fails if the machine is on or gone. */
  function Destroy(p: Pass, w: World, i: nat): World
    requires Fits(p, w) && i < |p.managed|
  {
    var id, call := p.managed[i].id, p.calls[i].destroy;
    if call.Refused? || id !in w.vms || id in w.on then w.Ended(i, true)
    else
      var gone := w.(vms := w.vms - {id}, removedBy := w.removedBy[id := i]);
      if call.Ok? then gone.At(i, OnNode) else gone.Ended(i, true)
  }

  /** A node that is gone is no error. */
  function DeleteNode(p: Pass, w: World, i: nat): World
    requires Fits(p, w) && i < |p.managed|
  {
    var call := p.calls[i].deleteNode;
    if p.NodeOf(i).None? then w.Ended(i, false)
    else if call.Refused? then w.Ended(i, true)
    else w.(nodes := w.nodes - {p.NodeOf(i).value}).Ended(i, call.Unacknowledged?)
  }

  /** The next call of worker `i`. */
  function Step(p: Pass, w: World, i: nat): (w': World)
    requires Fits(p, w)
    ensures Fits(p, w')
  {
    if i >= |p.managed| then w
    else match w.phase[i]
      case Waiting => LookUp(p, w, i)
      case Found => PowerOff(p, w, i)
      case Off => Destroy(p, w, i)
      case OnNode => DeleteNode(p, w, i)
      case Finished => w
  }

  function Replay(p: Pass, w: World, schedule: seq<nat>): (w': World)
    requires Fits(p, w)
    ensures Fits(p, w')
    decreases |schedule|
  {
    if schedule == [] then w else Step(p, Replay(p, w, schedule[..|schedule| - 1]), schedule[|schedule| - 1])
  }

  predicate Complete(w: World) {
    forall i :: 0 <= i < |w.phase| ==> w.phase[i].Finished?
  }

  // ---------------------------------------------------------------------------
  // What every schedule keeps.
  // ---------------------------------------------------------------------------

  ghost predicate SwitchedOff(p: Pass, w: World, i: nat)
    requires i < |p.managed|
  {
    p.managed[i].id in w.offBy && w.offBy[p.managed[i].id] == i
  }

  ghost predicate Removed(p: Pass, w: World, i: nat)
    requires i < |p.managed|
  {
    p.managed[i].id in w.removedBy && w.removedBy[p.managed[i].id] == i
  }

  /** The records agree with what is left of the machines. */
  ghost predicate RecordInv(p: Pass, c: Stock, w: World)
    requires Fits(p, w)
  {
    && w.vms <= c.vms && w.on <= w.vms && w.on <= c.on
    && (forall id :: id in w.offBy <==> id in c.on && id !in w.on)
    && (forall id :: id in w.removedBy <==> id in c.vms && id !in w.vms)
    && (forall id :: id in w.offBy ==>
          var k := w.offBy[id];
          k < |p.managed| && p.managed[k].id == id && !p.calls[k].powerOff.Refused? && k in w.found)
    && (forall id :: id in w.removedBy ==>
          && id in w.offBy && w.removedBy[id] == w.offBy[id]
          && var k := w.offBy[id];
             p.TakesAway(k) && !w.phase[k].Waiting? && !w.phase[k].Found? && !w.phase[k].Off?)
  }

  /** What the phase of a worker says about its machine. */
  ghost predicate PhaseInv(p: Pass, c: Stock, w: World, i: nat)
    requires Fits(p, w) && i < |p.managed|
  {
    var id := p.managed[i].id;
    match w.phase[i]
    case Waiting => i !in w.found
    case Found => i in w.found && !SwitchedOff(p, w, i)
    case Off => i in w.found && SwitchedOff(p, w, i) && id in w.vms && p.calls[i].powerOff.Ok?
    case OnNode => i in w.found && Removed(p, w, i) && p.calls[i].destroy.Ok?
    case Finished =>
      && (p.Looks(i) && i !in w.found ==> id !in w.vms)
      && (i in w.found && id in c.on && !p.calls[i].powerOff.Refused? ==> id in w.offBy)
      && (SwitchedOff(p, w, i) && p.TakesAway(i) ==> Removed(p, w, i))
  }

  ghost predicate FoundInv(p: Pass, c: Stock, w: World)
    requires p.Valid()
  {
    forall i :: i in w.found ==> i < |p.managed| && p.Looks(i) && p.managed[i].id in c.vms
  }

  ghost predicate VmInv(p: Pass, c: Stock, w: World)
    requires Fits(p, w)
  {
    && RecordInv(p, c, w) && FoundInv(p, c, w)
    && forall i :: 0 <= i < |p.managed| ==> PhaseInv(p, c, w, i)
  }

  /** Worker `i` went all the way. */
  ghost predicate Succeeded(p: Pass, w: World, i: nat)
    requires p.Valid() && i < |p.managed|
  {
    && SwitchedOff(p, w, i) && p.calls[i].powerOff.Ok? && p.calls[i].destroy.Ok?
    && (p.NodeOf(i).Some? ==> p.calls[i].deleteNode.Ok?)
  }

  /** A worker fails if its lookup does, or if it found its machine and did not go all the way. */
  ghost predicate ErrAt(p: Pass, w: World, i: nat)
    requires Fits(p, w) && i < |p.managed|
  {
    w.errs[i] <==>
    && w.phase[i].Finished? && p.Collects(i)
    && (!p.calls[i].lookupGetsThrough || (i in w.found && !Succeeded(p, w, i)))
  }

  ghost predicate ErrInv(p: Pass, w: World)
    requires Fits(p, w)
  {
    forall i :: 0 <= i < |p.managed| ==> ErrAt(p, w, i)
  }

  ghost predicate DeletedNode(p: Pass, w: World, i: nat, name: string)
    requires Fits(p, w) && i < |p.managed|
  {
    && w.phase[i].Finished? && Removed(p, w, i) && p.calls[i].destroy.Ok?
    && p.NodeOf(i) == Some(name) && !p.calls[i].deleteNode.Refused?
  }

  ghost predicate NodeInv(p: Pass, c: Stock, w: World)
    requires Fits(p, w)
  {
    forall name :: name in w.nodes <==>
      name in c.nodes && forall i :: 0 <= i < |p.managed| ==> !DeletedNode(p, w, i, name)
  }

  ghost predicate Inv(p: Pass, c: Stock, w: World) {
    Fits(p, w) && VmInv(p, c, w) && ErrInv(p, w) && NodeInv(p, c, w)
  }

  /** Records stay true while no machine changes and the workers only go forward. */
  lemma RecordsFrame(p: Pass, c: Stock, w: World, w': World)
    requires Fits(p, w) && Fits(p, w') && RecordInv(p, c, w)
    requires w'.vms == w.vms && w'.on == w.on && w'.offBy == w.offBy && w'.removedBy == w.removedBy
    requires w.found <= w'.found
    requires forall k :: 0 <= k < |p.managed| && (w.phase[k].OnNode? || w.phase[k].Finished?) ==>
               w'.phase[k].OnNode? || w'.phase[k].Finished?
    ensures RecordInv(p, c, w')
  {
  }

  lemma LookUpKeepsRecords(p: Pass, c: Stock, w: World, i: nat)
    requires Fits(p, w) && VmInv(p, c, w) && i < |p.managed| && w.phase[i].Waiting?
    ensures RecordInv(p, c, Step(p, w, i)) && FoundInv(p, c, Step(p, w, i))
  {
    var w' := Step(p, w, i);
    assert w'.found == w.found || (w'.found == w.found + {i} && p.Looks(i) && p.managed[i].id in w.vms);
    RecordsFrame(p, c, w, w');
    assert w.vms <= c.vms;
    hide RecordInv, Step, PhaseInv;
  }

  lemma LookUpOwnPhase(p: Pass, c: Stock, w: World, i: nat)
    requires Fits(p, w) && VmInv(p, c, w) && i < |p.managed| && w.phase[i].Waiting?
    ensures PhaseInv(p, c, Step(p, w, i), i)
  {
    assert PhaseInv(p, c, w, i);
    assert !SwitchedOff(p, w, i);
  }

  lemma PowerOffKeepsRecords(p: Pass, c: Stock, w: World, i: nat)
    requires Fits(p, w) && VmInv(p, c, w) && i < |p.managed| && w.phase[i].Found?
    ensures RecordInv(p, c, Step(p, w, i)) && FoundInv(p, c, Step(p, w, i)) && PhaseInv(p, c, Step(p, w, i), i)
  {
    assert PhaseInv(p, c, w, i);
  }

  lemma DestroyKeepsRecords(p: Pass, c: Stock, w: World, i: nat)
    requires Fits(p, w) && VmInv(p, c, w) && i < |p.managed| && w.phase[i].Off?
    ensures RecordInv(p, c, Step(p, w, i)) && FoundInv(p, c, Step(p, w, i)) && PhaseInv(p, c, Step(p, w, i), i)
  {
    assert PhaseInv(p, c, w, i);
  }

  lemma DeleteNodeKeepsRecords(p: Pass, c: Stock, w: World, i: nat)
    requires Fits(p, w) && VmInv(p, c, w) && i < |p.managed| && w.phase[i].OnNode?
    ensures RecordInv(p, c, Step(p, w, i)) && FoundInv(p, c, Step(p, w, i)) && PhaseInv(p, c, Step(p, w, i), i)
  {
    var w' := Step(p, w, i);
    assert PhaseInv(p, c, w, i);
    assert p.managed[i].id in w.offBy;
    RecordsFrame(p, c, w, w');
    hide RecordInv;
  }

  /** What the phase of a worker says stays true while others go on. */
  lemma PhaseFrame(p: Pass, c: Stock, w: World, w': World, j: nat)
    requires Fits(p, w) && Fits(p, w') && j < |p.managed| && PhaseInv(p, c, w, j)
    requires w'.phase[j] == w.phase[j] && (j in w'.found <==> j in w.found) && w'.vms <= w.vms
    requires SwitchedOff(p, w', j) <==> SwitchedOff(p, w, j)
    requires Removed(p, w, j) ==> Removed(p, w', j)
    requires p.managed[j].id in w.offBy ==> p.managed[j].id in w'.offBy
    requires w.phase[j].Off? && p.managed[j].id in w.vms ==> p.managed[j].id in w'.vms
    ensures PhaseInv(p, c, w', j)
  {
  }

  /** Only worker `i` is different. */
  ghost predicate OnlyOwn(p: Pass, w: World, w': World, i: nat)
    requires Fits(p, w)
  {
    && Fits(p, w')
    && (forall j :: 0 <= j < |p.managed| && j != i ==> w'.phase[j] == w.phase[j] && w'.errs[j] == w.errs[j])
    && (forall j :: j != i ==> (j in w'.found <==> j in w.found))
  }

  lemma LookUpIsOwn(p: Pass, w: World, i: nat)
    requires Fits(p, w) && i < |p.managed|
    ensures OnlyOwn(p, w, LookUp(p, w, i), i)
  {
  }

  lemma PowerOffIsOwn(p: Pass, w: World, i: nat)
    requires Fits(p, w) && i < |p.managed|
    ensures OnlyOwn(p, w, PowerOff(p, w, i), i)
  {
  }

  lemma DestroyIsOwn(p: Pass, w: World, i: nat)
    requires Fits(p, w) && i < |p.managed|
    ensures OnlyOwn(p, w, Destroy(p, w, i), i)
  {
  }

  lemma DeleteNodeIsOwn(p: Pass, w: World, i: nat)
    requires Fits(p, w) && i < |p.managed|
    ensures OnlyOwn(p, w, DeleteNode(p, w, i), i)
  {
  }

  lemma OthersUntouched(p: Pass, w: World, i: nat, j: nat)
    requires Fits(p, w) && i < |p.managed| && j < |p.managed| && j != i
    ensures var w' := Step(p, w, i);
            && w'.phase[j] == w.phase[j] && w'.errs[j] == w.errs[j]
            && (j in w'.found <==> j in w.found)
  {
    hide LookUp, PowerOff, Destroy, DeleteNode;
    match w.phase[i] {
      case Waiting => LookUpIsOwn(p, w, i);
      case Found => PowerOffIsOwn(p, w, i);
      case Off => DestroyIsOwn(p, w, i);
      case OnNode => DeleteNodeIsOwn(p, w, i);
      case Finished =>
    }
  }

  /** A step powers off at most its worker's machine, and destroys at most that. */
  lemma StepOnRecords(p: Pass, w: World, i: nat)
    requires Fits(p, w) && i < |p.managed|
    ensures var w' := Step(p, w, i);
            var id := p.managed[i].id;
            && (w'.offBy == w.offBy || (id in w.on && w'.offBy == w.offBy[id := i]))
            && ((w'.removedBy == w.removedBy && w'.vms == w.vms)
                || (id in w.vms && w.phase[i].Off? && w'.removedBy == w.removedBy[id := i] && w'.vms == w.vms - {id}))
  {
  }

  lemma OthersRecords(p: Pass, c: Stock, w: World, i: nat, j: nat)
    requires Fits(p, w) && RecordInv(p, c, w) && i < |p.managed| && j < |p.managed| && j != i
    requires w.phase[i].Off? ==> SwitchedOff(p, w, i)
    requires w.phase[j].Off? ==> SwitchedOff(p, w, j)
    ensures var w' := Step(p, w, i);
            && w'.vms <= w.vms
            && (SwitchedOff(p, w', j) <==> SwitchedOff(p, w, j))
            && (Removed(p, w', j) <==> Removed(p, w, j))
            && (p.managed[j].id in w.offBy ==> p.managed[j].id in w'.offBy)
            && (w.phase[j].Off? && p.managed[j].id in w.vms ==> p.managed[j].id in w'.vms)
  {
    StepOnRecords(p, w, i);
    hide Step;
  }

  /** A step leaves what the phases of the other workers say. */
  lemma OthersKeepPhase(p: Pass, c: Stock, w: World, i: nat, j: nat)
    requires Fits(p, w) && VmInv(p, c, w) && i < |p.managed| && j < |p.managed| && j != i
    ensures PhaseInv(p, c, Step(p, w, i), j)
  {
    assert PhaseInv(p, c, w, i) && PhaseInv(p, c, w, j);
    OthersUntouched(p, w, i, j);
    OthersRecords(p, c, w, i, j);
    hide Step;
    PhaseFrame(p, c, w, Step(p, w, i), j);
  }

  lemma StepKeepsVms(p: Pass, c: Stock, w: World, i: nat)
    requires Fits(p, w) && VmInv(p, c, w)
    ensures VmInv(p, c, Step(p, w, i))
  {
    if i < |p.managed| && !w.phase[i].Finished? {
      forall j | 0 <= j < |p.managed| && j != i ensures PhaseInv(p, c, Step(p, w, i), j) {
        OthersKeepPhase(p, c, w, i, j);
      }
      hide RecordInv, FoundInv, PhaseInv, Step;
      match w.phase[i] {
        case Waiting =>
          LookUpKeepsRecords(p, c, w, i);
          LookUpOwnPhase(p, c, w, i);
        case Found => PowerOffKeepsRecords(p, c, w, i);
        case Off => DestroyKeepsRecords(p, c, w, i);
        case OnNode => DeleteNodeKeepsRecords(p, c, w, i);
      }
    }
  }

  lemma OwnErr(p: Pass, c: Stock, w: World, i: nat)
    requires Fits(p, w) && VmInv(p, c, w) && ErrInv(p, w) && i < |p.managed| && !w.phase[i].Finished?
    ensures ErrAt(p, Step(p, w, i), i)
  {
    assert PhaseInv(p, c, w, i) && ErrAt(p, w, i);
  }

  lemma StepKeepsErrs(p: Pass, c: Stock, w: World, i: nat)
    requires Fits(p, w) && VmInv(p, c, w) && ErrInv(p, w)
    ensures ErrInv(p, Step(p, w, i))
  {
    if i < |p.managed| && !w.phase[i].Finished? {
      forall j | 0 <= j < |p.managed| ensures ErrAt(p, Step(p, w, i), j) {
        assert PhaseInv(p, c, w, i) && PhaseInv(p, c, w, j) && ErrAt(p, w, j);
        if j == i {
          OwnErr(p, c, w, i);
        } else {
          OthersUntouched(p, w, i, j);
          OthersRecords(p, c, w, i, j);
        }
      }
    }
  }

  /** The step of worker `i` deletes its node and no other. */
  lemma OwnNode(p: Pass, c: Stock, w: World, i: nat)
    requires Fits(p, w) && VmInv(p, c, w) && i < |p.managed| && !w.phase[i].Finished?
    ensures var w' := Step(p, w, i);
            forall name :: name in w'.nodes <==> name in w.nodes && !DeletedNode(p, w', i, name)
  {
    assert PhaseInv(p, c, w, i);
  }

  lemma StepKeepsNodes(p: Pass, c: Stock, w: World, i: nat)
    requires Fits(p, w) && VmInv(p, c, w) && NodeInv(p, c, w)
    ensures NodeInv(p, c, Step(p, w, i))
  {
    if i < |p.managed| && !w.phase[i].Finished? {
      var w' := Step(p, w, i);
      forall j, name | 0 <= j < |p.managed| && j != i
        ensures DeletedNode(p, w', j, name) <==> DeletedNode(p, w, j, name)
      {
        assert PhaseInv(p, c, w, i) && PhaseInv(p, c, w, j);
        OthersUntouched(p, w, i, j);
        OthersRecords(p, c, w, i, j);
      }
      OwnNode(p, c, w, i);
      hide Step, VmInv;
      forall name
        ensures name in w'.nodes <==>
                  name in c.nodes && forall j :: 0 <= j < |p.managed| ==> !DeletedNode(p, w', j, name)
      {
        assert !DeletedNode(p, w, i, name);
      }
    }
  }

  lemma {:induction false} ReplayKeepsInv(p: Pass, c: Stock, schedule: seq<nat>)
    requires p.Valid() && c.Valid()
    ensures Inv(p, c, Replay(p, Start(p, c), schedule))
    decreases |schedule|
  {
    if schedule != [] {
      var w := Replay(p, Start(p, c), schedule[..|schedule| - 1]);
      ReplayKeepsInv(p, c, schedule[..|schedule| - 1]);
      hide Step, VmInv, ErrInv, NodeInv;
      StepKeepsVms(p, c, w, schedule[|schedule| - 1]);
      StepKeepsErrs(p, c, w, schedule[|schedule| - 1]);
      StepKeepsNodes(p, c, w, schedule[|schedule| - 1]);
    }
  }

  // ---------------------------------------------------------------------------
  // When the order matters.
  // ---------------------------------------------------------------------------

  /** Worker `i` finds its machine, unless another one is faster. */
  ghost predicate CanFind(p: Pass, c: Stock, i: nat)
    requires p.Valid() && i < |p.managed|
  {
    p.Looks(i) && p.managed[i].id in c.vms
  }

  /** Worker `i` takes its machine away, unless another one is faster. */
  ghost predicate CanRemove(p: Pass, c: Stock, i: nat)
    requires p.Valid() && i < |p.managed|
  {
    p.TakesAway(i) && p.managed[i].id in c.on
  }

  /** Worker `i` can find the machine that worker `j` can take away. */
  ghost predicate Race(p: Pass, c: Stock, i: nat, j: nat)
    requires p.Valid() && i < |p.managed| && j < |p.managed|
  {
    i != j && p.managed[i].id == p.managed[j].id && CanFind(p, c, i) && CanRemove(p, c, j)
  }

  ghost predicate NoRace(p: Pass, c: Stock)
    requires p.Valid()
  {
    forall i, j :: 0 <= i < |p.managed| && 0 <= j < |p.managed| ==> !Race(p, c, i, j)
  }

  ghost predicate DistinctIds(p: Pass) {
    forall i, j :: 0 <= i < j < |p.managed| ==> p.managed[i].id != p.managed[j].id
  }

  lemma DistinctIdsDoNotRace(p: Pass, c: Stock)
    requires p.Valid() && DistinctIds(p)
    ensures NoRace(p, c)
  {
  }

  /** Worker `i` goes all the way, unless another one is faster. */
  ghost predicate CanSucceed(p: Pass, c: Stock, i: nat)
    requires p.Valid() && i < |p.managed|
  {
    && CanRemove(p, c, i) && p.calls[i].destroy.Ok?
    && (p.NodeOf(i).Some? ==> p.calls[i].deleteNode.Ok?)
  }

  ghost predicate WorkerFails(p: Pass, c: Stock, i: nat)
    requires p.Valid() && i < |p.managed|
  {
    p.Collects(i) && (!p.calls[i].lookupGetsThrough || (p.managed[i].id in c.vms && !CanSucceed(p, c, i)))
  }

  ghost predicate RemovesNode(p: Pass, c: Stock, i: nat, name: string)
    requires p.Valid() && i < |p.managed|
  {
    && CanRemove(p, c, i) && p.calls[i].destroy.Ok?
    && p.NodeOf(i) == Some(name) && !p.calls[i].deleteNode.Refused?
  }

  /** Where a pass ends whatever the order: the machines left and which of them are on, the nodes
      left, and the error slots. */
  ghost predicate Settled(p: Pass, c: Stock, w: World)
    requires Fits(p, w)
  {
    && (forall id :: id in w.vms <==>
          id in c.vms && forall i :: 0 <= i < |p.managed| && CanRemove(p, c, i) ==> p.managed[i].id != id)
    && (forall id :: id in w.on <==>
          id in c.on && forall i :: 0 <= i < |p.managed| && p.Looks(i) && !p.calls[i].powerOff.Refused? ==>
                          p.managed[i].id != id)
    && (forall name :: name in w.nodes <==>
          name in c.nodes && forall i :: 0 <= i < |p.managed| ==> !RemovesNode(p, c, i, name))
    && (forall i :: 0 <= i < |p.managed| ==> (w.errs[i] <==> WorkerFails(p, c, i)))
  }

  /** Without a race, a worker that can take its machine away does. */
  lemma WinnerRemoves(p: Pass, c: Stock, w: World, i: nat)
    requires Inv(p, c, w) && Complete(w) && NoRace(p, c) && c.Valid() && i < |p.managed|
    ensures CanRemove(p, c, i) <==> Removed(p, w, i)
    ensures CanFind(p, c, i) ==> i in w.found
    ensures CanRemove(p, c, i) ==> SwitchedOff(p, w, i)
  {
    assert PhaseInv(p, c, w, i);
    var id := p.managed[i].id;
    if CanFind(p, c, i) && id in w.removedBy {
      assert !Race(p, c, i, w.removedBy[id]);
    }
    if CanRemove(p, c, i) && id in w.offBy {
      assert !Race(p, c, w.offBy[id], i);
    }
  }

  lemma VmsSettled(p: Pass, c: Stock, w: World, id: string)
    requires Inv(p, c, w) && Complete(w) && NoRace(p, c) && c.Valid()
    ensures id in w.vms <==>
              id in c.vms && forall i :: 0 <= i < |p.managed| && CanRemove(p, c, i) ==> p.managed[i].id != id
  {
    forall i | 0 <= i < |p.managed| && CanRemove(p, c, i) ensures Removed(p, w, i) { WinnerRemoves(p, c, w, i); }
    if id in w.removedBy {
      assert CanRemove(p, c, w.removedBy[id]);
    }
  }

  lemma OnSettled(p: Pass, c: Stock, w: World, id: string)
    requires Inv(p, c, w) && Complete(w) && NoRace(p, c) && c.Valid()
    ensures id in w.on <==>
              id in c.on && forall i :: 0 <= i < |p.managed| && p.Looks(i) && !p.calls[i].powerOff.Refused? ==>
                              p.managed[i].id != id
  {
    if id in w.offBy {
      assert p.Looks(w.offBy[id]);
    }
    forall i | 0 <= i < |p.managed| && p.Looks(i) && !p.calls[i].powerOff.Refused? && p.managed[i].id == id
      ensures id !in w.on
    {
      assert PhaseInv(p, c, w, i);
    }
  }

  lemma NodeSettled(p: Pass, c: Stock, w: World, i: nat, name: string)
    requires Inv(p, c, w) && Complete(w) && NoRace(p, c) && c.Valid()
    requires i < |p.managed|
    ensures DeletedNode(p, w, i, name) <==> RemovesNode(p, c, i, name)
  {
    WinnerRemoves(p, c, w, i);
  }

  lemma ErrSettled(p: Pass, c: Stock, w: World, i: nat)
    requires Inv(p, c, w) && Complete(w) && NoRace(p, c) && c.Valid()
    requires i < |p.managed|
    ensures w.errs[i] <==> WorkerFails(p, c, i)
  {
    WinnerRemoves(p, c, w, i);
    assert ErrAt(p, w, i);
    assert Succeeded(p, w, i) && i in w.found ==> CanRemove(p, c, i);
  }

  lemma CompleteIsSettled(p: Pass, c: Stock, w: World)
    requires Inv(p, c, w) && Complete(w) && NoRace(p, c) && c.Valid()
    ensures Settled(p, c, w)
  {
    forall id
      ensures id in w.vms <==>
                id in c.vms && forall i :: 0 <= i < |p.managed| && CanRemove(p, c, i) ==> p.managed[i].id != id
      ensures id in w.on <==>
                id in c.on && forall i :: 0 <= i < |p.managed| && p.Looks(i) && !p.calls[i].powerOff.Refused? ==>
                                p.managed[i].id != id
    {
      VmsSettled(p, c, w, id);
      OnSettled(p, c, w, id);
    }
    forall i, name | 0 <= i < |p.managed| ensures DeletedNode(p, w, i, name) <==> RemovesNode(p, c, i, name) {
      NodeSettled(p, c, w, i, name);
    }
    forall i | 0 <= i < |p.managed| ensures w.errs[i] <==> WorkerFails(p, c, i) {
      ErrSettled(p, c, w, i);
    }
    hide DeletedNode, RemovesNode, WorkerFails, CanRemove, VmInv, ErrInv, NoRace;
  }

  /** The same machines, nodes and error slots. */
  ghost predicate SameOutcome(v: World, w: World) {
    v.vms == w.vms && v.on == w.on && v.nodes == w.nodes && v.errs == w.errs
  }

  lemma SettledIsUnique(p: Pass, c: Stock, v: World, w: World)
    requires Fits(p, v) && Fits(p, w) && Settled(p, c, v) && Settled(p, c, w)
    ensures SameOutcome(v, w)
  {
    hide RemovesNode, WorkerFails, CanRemove;
    assert forall i :: 0 <= i < |p.managed| ==> v.errs[i] == w.errs[i];
  }

  /** Worker `i` to its end. */
  function Turn(i: nat): seq<nat> {
    [i] + [i] + [i] + [i]
  }

  /** Every worker in turn, to its end. */
  function Rounds(n: nat): seq<nat> {
    if n == 0 then [] else Rounds(n - 1) + Turn(n - 1)
  }

  lemma ReplayNone(p: Pass, w: World)
    requires Fits(p, w)
    ensures Replay(p, w, []) == w
  {
  }

  lemma ReplayOne(p: Pass, w: World, schedule: seq<nat>, i: nat)
    requires Fits(p, w)
    ensures Replay(p, w, schedule + [i]) == Step(p, Replay(p, w, schedule), i)
  {
    assert (schedule + [i])[..|schedule|] == schedule;
  }

  lemma {:induction false} ReplayConcat(p: Pass, w: World, a: seq<nat>, b: seq<nat>)
    requires Fits(p, w)
    ensures Replay(p, w, a + b) == Replay(p, Replay(p, w, a), b)
    decreases |b|
  {
    if b == [] {
      assert a + b == a;
    } else {
      assert (a + b)[..|a + b| - 1] == a + b[..|b| - 1];
      ReplayConcat(p, w, a, b[..|b| - 1]);
    }
  }

  function Rank(phase: Phase): nat {
    match phase case Waiting => 4 case Found => 3 case Off => 2 case OnNode => 1 case Finished => 0
  }

  lemma StepGoesOn(p: Pass, w: World, i: nat, j: nat)
    requires Fits(p, w) && i < |p.managed| && j < |p.managed|
    ensures var w' := Step(p, w, i);
            && (w.phase[i].Finished? ==> w' == w)
            && (!w.phase[i].Finished? ==> Rank(w'.phase[i]) < Rank(w.phase[i]))
            && (j != i ==> w'.phase[j] == w.phase[j])
  {
  }

  /** After its turn a worker is finished, and the others are where they were. */
  lemma TurnFinishes(p: Pass, w: World, i: nat)
    requires Fits(p, w) && i < |p.managed|
    ensures var w' := Replay(p, w, Turn(i));
            && w'.phase[i].Finished?
            && forall j :: 0 <= j < |p.managed| && j != i ==> w'.phase[j] == w.phase[j]
  {
    hide Step, Replay;
    ReplayNone(p, w);
    assert [] + [i] == [i];
    ReplayOne(p, w, [], i);
    ReplayOne(p, w, [i], i);
    ReplayOne(p, w, [i] + [i], i);
    ReplayOne(p, w, [i] + [i] + [i], i);
    var w1 := Step(p, w, i);
    var w2 := Step(p, w1, i);
    var w3 := Step(p, w2, i);
    forall j | 0 <= j < |p.managed|
      ensures j != i ==> Step(p, w3, i).phase[j] == w.phase[j]
      ensures Step(p, w3, i).phase[i].Finished?
    {
      StepGoesOn(p, w, i, j);
      StepGoesOn(p, w1, i, j);
      StepGoesOn(p, w2, i, j);
      StepGoesOn(p, w3, i, j);
    }
  }

  lemma {:induction false} RoundsComplete(p: Pass, w: World, n: nat)
    requires Fits(p, w) && n <= |p.managed|
    ensures forall i :: 0 <= i < n ==> Replay(p, w, Rounds(n)).phase[i].Finished?
  {
    if n > 0 {
      hide Replay, Step, Turn;
      var before := Replay(p, w, Rounds(n - 1));
      RoundsComplete(p, w, n - 1);
      ReplayConcat(p, w, Rounds(n - 1), Turn(n - 1));
      TurnFinishes(p, before, n - 1);
      assert Replay(p, w, Rounds(n)) == Replay(p, before, Turn(n - 1));
    }
  }

  // --- the two orders of a race

  lemma StepKeepsSlot(p: Pass, w: World, i: nat, j: nat)
    requires Fits(p, w) && j < |p.managed| && w.phase[j].Finished?
    ensures Step(p, w, i).phase[j].Finished? && Step(p, w, i).errs[j] == w.errs[j]
  {
    if i < |p.managed| && i != j {
      OthersUntouched(p, w, i, j);
      hide Step;
    }
  }

  /** Once a worker is finished, its slot does not change. */
  lemma {:induction false} SlotStays(p: Pass, w: World, schedule: seq<nat>, j: nat)
    requires Fits(p, w) && j < |p.managed| && w.phase[j].Finished?
    ensures var w' := Replay(p, w, schedule); w'.phase[j].Finished? && w'.errs[j] == w.errs[j]
    decreases |schedule|
  {
    if schedule != [] {
      SlotStays(p, w, schedule[..|schedule| - 1], j);
      StepKeepsSlot(p, Replay(p, w, schedule[..|schedule| - 1]), schedule[|schedule| - 1], j);
    }
  }

  lemma ReplayFour(p: Pass, w: World, i: nat)
    requires Fits(p, w)
    ensures Replay(p, w, Turn(i)) == Step(p, Step(p, Step(p, Step(p, w, i), i), i), i)
  {
    hide Step, Replay;
    ReplayNone(p, w);
    assert [] + [i] == [i];
    ReplayOne(p, w, [], i);
    ReplayOne(p, w, [i], i);
    ReplayOne(p, w, [i] + [i], i);
    ReplayOne(p, w, [i] + [i] + [i], i);
  }

  /** A worker that has its turn while its machine is on takes it away, if it can. */
  lemma TurnRemoves(p: Pass, w: World, j: nat)
    requires Fits(p, w) && j < |p.managed| && w.phase[j].Waiting? && p.TakesAway(j)
    requires p.managed[j].id in w.vms && p.managed[j].id in w.on
    ensures var w' := Replay(p, w, Turn(j)); p.managed[j].id !in w'.vms && p.managed[j].id !in w'.on
  {
    ReplayFour(p, w, j);
    var w1 := Step(p, w, j);
    assert w1.phase[j].Found? && w1.vms == w.vms && w1.on == w.on;
    var w2 := Step(p, w1, j);
    assert w2.phase[j].Off? && w2.vms == w.vms && w2.on == w.on - {p.managed[j].id};
    var w3 := Step(p, w2, j);
    assert w3.vms == w.vms - {p.managed[j].id} && w3.on == w2.on && (w3.phase[j].OnNode? || w3.phase[j].Finished?);
  }

  /** A schedule can be completed without changing the slot of a finished worker. */
  lemma CompletedWithSlot(p: Pass, c: Stock, schedule: seq<nat>, i: nat)
    requires p.Valid() && i < |p.managed| && Replay(p, Start(p, c), schedule).phase[i].Finished?
    ensures var w := Replay(p, Start(p, c), schedule + Rounds(|p.managed|));
            Complete(w) && w.errs[i] == Replay(p, Start(p, c), schedule).errs[i]
  {
    var w := Replay(p, Start(p, c), schedule);
    ReplayConcat(p, Start(p, c), schedule, Rounds(|p.managed|));
    RoundsComplete(p, w, |p.managed|);
    SlotStays(p, w, Rounds(|p.managed|), i);
  }

  /** If worker `j` has its turn first, worker `i` finds nothing, and that is no error. */
  lemma LateLookupIsClean(p: Pass, c: Stock, i: nat, j: nat) returns (schedule: seq<nat>)
    requires p.Valid() && c.Valid() && i < |p.managed| && j < |p.managed| && Race(p, c, i, j)
    ensures var w := Replay(p, Start(p, c), schedule); Complete(w) && !w.errs[i]
  {
    var start := Start(p, c);
    var w := Replay(p, start, Turn(j));
    hide Replay, Turn, Rounds;
    TurnRemoves(p, start, j);
    TurnFinishes(p, start, j);
    assert w.phase[i].Waiting?;
    ReplayKeepsInv(p, c, Turn(j));
    assert ErrAt(p, w, i);
    ReplayOne(p, start, Turn(j), i);
    CompletedWithSlot(p, c, Turn(j) + [i], i);
    schedule := Turn(j) + [i] + Rounds(|p.managed|);
  }

  /** If worker `i` has found the machine before, it cannot power it off any more, and that is one. */
  lemma EarlyLookupFails(p: Pass, c: Stock, i: nat, j: nat) returns (schedule: seq<nat>)
    requires p.Valid() && c.Valid() && i < |p.managed| && j < |p.managed| && Race(p, c, i, j)
    ensures var w := Replay(p, Start(p, c), schedule); Complete(w) && w.errs[i]
  {
    var start := Start(p, c);
    ReplayNone(p, start);
    hide Replay, Turn, Rounds;
    assert [] + [i] == [i];
    ReplayOne(p, start, [], i);
    var found := Replay(p, start, [i]);
    assert found.phase[i].Found? && found.vms == c.vms && found.on == c.on && found.phase[j].Waiting?;
    TurnRemoves(p, found, j);
    TurnFinishes(p, found, j);
    ReplayConcat(p, start, [i], Turn(j));
    var w := Replay(p, start, [i] + Turn(j));
    assert w.phase[i].Found? && p.managed[i].id !in w.on;
    ReplayOne(p, start, [i] + Turn(j), i);
    CompletedWithSlot(p, c, [i] + Turn(j) + [i], i);
    schedule := [i] + Turn(j) + [i] + Rounds(|p.managed|);
  }

  /** Every complete schedule of calls ends alike. */
  ghost predicate OrderIndependent(p: Pass, c: Stock)
    requires p.Valid()
  {
    forall a, b :: Complete(Replay(p, Start(p, c), a)) && Complete(Replay(p, Start(p, c), b)) ==>
      SameOutcome(Replay(p, Start(p, c), a), Replay(p, Start(p, c), b))
  }

  lemma RaceDependsOnOrder(p: Pass, c: Stock, i: nat, j: nat)
    requires p.Valid() && c.Valid() && i < |p.managed| && j < |p.managed| && Race(p, c, i, j)
    ensures !OrderIndependent(p, c)
  {
    var a := LateLookupIsClean(p, c, i, j);
    var b := EarlyLookupFails(p, c, i, j);
    hide Replay, Start;
    assert !SameOutcome(Replay(p, Start(p, c), a), Replay(p, Start(p, c), b));
  }

  /** The interleaving of the workers' calls makes no difference to the machines, the nodes and the
      error slots if and only if no worker can find a machine that another one can take away. */
  lemma OrderIndependentIff(p: Pass, c: Stock)
    requires p.Valid() && c.Valid()
    ensures OrderIndependent(p, c) <==> NoRace(p, c)
  {
    if NoRace(p, c) {
      forall a, b | Complete(Replay(p, Start(p, c), a)) && Complete(Replay(p, Start(p, c), b))
        ensures SameOutcome(Replay(p, Start(p, c), a), Replay(p, Start(p, c), b))
      {
        hide Replay, Start, Settled, Inv, NoRace, SameOutcome;
        var v, w := Replay(p, Start(p, c), a), Replay(p, Start(p, c), b);
        ReplayKeepsInv(p, c, a);
        ReplayKeepsInv(p, c, b);
        CompleteIsSettled(p, c, v);
        CompleteIsSettled(p, c, w);
        SettledIsUnique(p, c, v, w);
      }
    } else {
      var i, j :| 0 <= i < |p.managed| && 0 <= j < |p.managed| && Race(p, c, i, j);
      RaceDependsOnOrder(p, c, i, j);
    }
  }

  /** Two collectable entries of the list name the same machine, which is on. */
  ghost predicate ListedTwice(p: Pass, c: Stock)
    requires p.Valid()
  {
    exists i, j :: 0 <= i < j < |p.managed| && p.managed[i].id == p.managed[j].id && p.managed[i].id in c.on
                   && p.Collects(i) && p.Collects(j)
  }

  const ALL_OK := Calls(true, Ok, Ok, Ok)

  /** Whatever becomes of the calls, their order makes no difference, if and only if no machine
      that is on is collectable under two entries of the list. */
  lemma AlwaysIndependentIff(p: Pass, c: Stock)
    requires p.Valid() && c.Valid()
    ensures (forall calls :: |calls| == |p.managed| ==> OrderIndependent(p.(calls := calls), c)) <==> !ListedTwice(p, c)
  {
    if ListedTwice(p, c) {
      var i, j :| 0 <= i < j < |p.managed| && p.managed[i].id == p.managed[j].id && p.managed[i].id in c.on
                  && p.Collects(i) && p.Collects(j);
      var q := p.(calls := seq(|p.managed|, _ => ALL_OK));
      assert Race(q, c, i, j);
      RaceDependsOnOrder(q, c, i, j);
    } else {
      forall calls | |calls| == |p.managed| ensures OrderIndependent(p.(calls := calls), c) {
        var q := p.(calls := calls);
        forall i, j | 0 <= i < |q.managed| && 0 <= j < |q.managed| ensures !Race(q, c, i, j) {
          assert q.Collects(i) == p.Collects(i) && q.Collects(j) == p.Collects(j);
        }
        OrderIndependentIff(q, c);
      }
    }
  }

  /** A listing that names one machine twice: with every call getting through, the outcome depends
      on whether the second worker asks before the first has taken the machine away. */
  lemma ListedTwiceCanFail(id: string, now: Time)
    ensures var e := Entry(id, now - MIN_AGE - 1, false);
            var p := Pass([e, e], {}, [], [now, now], [ALL_OK, ALL_OK]);
            !OrderIndependent(p, Stock({id}, {id}, {}))
  {
    var e := Entry(id, now - MIN_AGE - 1, false);
    var p := Pass([e, e], {}, [], [now, now], [ALL_OK, ALL_OK]);
    assert Race(p, Stock({id}, {id}, {}), 0, 1);
    RaceDependsOnOrder(p, Stock({id}, {id}, {}), 0, 1);
  }

  // ---------------------------------------------------------------------------
  // What a pass removes.
  // ---------------------------------------------------------------------------

  /** What the three lists of a pass return; none where the call fails. */
  datatype Lookups = Lookups(cloud: Option<seq<Entry>>, claims: Option<seq<string>>, nodes: Option<seq<Node>>)
  {
    predicate Succeed() {
      cloud.Some? && claims.Some? && nodes.Some?
    }
  }

  /** The pass is over these lists. */
  predicate PassOver(p: Pass, l: Lookups) {
    && l.Succeed() && p.Valid()
    && p.managed == Managed(l.cloud.value) && p.resolved == Resolved(l.claims.value) && p.nodes == l.nodes.value
  }

  lemma NoErrorMeansGone(p: Pass, c: Stock, w: World, i: nat)
    requires Inv(p, c, w) && Complete(w) && i < |p.managed| && p.Collects(i) && !w.errs[i]
    ensures p.managed[i].id !in w.vms
  {
    assert ErrAt(p, w, i) && PhaseInv(p, c, w, i);
  }

  /** In any order of the calls, a complete pass without errors removes exactly the listed machines
      that were managed, unresolved and older than five minutes when looked at. */
  lemma CleanPassRemovesExactly(l: Lookups, p: Pass, c: Stock, schedule: seq<nat>, id: string)
    requires PassOver(p, l) && c.Valid()
    requires var w := Replay(p, Start(p, c), schedule);
             Complete(w) && forall i :: 0 <= i < |w.errs| ==> !w.errs[i]
    ensures var w := Replay(p, Start(p, c), schedule);
            id in c.vms && id !in w.vms <==>
            && id in c.vms && (id !in l.claims.value || id == "")
            && exists i :: 0 <= i < |p.managed| && p.managed[i] in l.cloud.value && !p.managed[i].deleting
                           && p.managed[i].id == id && p.clock[i] - p.managed[i].created > 300_000_000_000
  {
    var w := Replay(p, Start(p, c), schedule);
    ReplayKeepsInv(p, c, schedule);
    forall i | 0 <= i < |p.managed| && p.Collects(i) ensures p.managed[i].id !in w.vms {
      NoErrorMeansGone(p, c, w, i);
    }
    if id in w.removedBy {
      assert p.Collects(w.removedBy[id]);
    }
    hide Replay, VmInv, ErrInv, NodeInv;
  }

  /** The machine for which a node was deleted. */
  ghost function MachineOf(p: Pass, w: World, name: string): string
    requires Fits(p, w) && exists i :: 0 <= i < |p.managed| && DeletedNode(p, w, i, name)
  {
    var i :| 0 <= i < |p.managed| && DeletedNode(p, w, i, name);
    p.managed[i].id
  }

  lemma MachineOfDeleted(p: Pass, c: Stock, w: World, name: string)
    requires Inv(p, c, w) && name in c.nodes - w.nodes
    ensures exists i :: 0 <= i < |p.managed| && DeletedNode(p, w, i, name)
    ensures var id := MachineOf(p, w, name);
            id in c.vms - w.vms && FindNode(p.nodes, id).Some? && FindNode(p.nodes, id).value.name == name
  {
  }

  /** In any order of the calls, at any moment, the nodes deleted so far are the first listed nodes
      of machines removed so far, at most one to each machine. */
  lemma NodesFollowMachines(l: Lookups, p: Pass, c: Stock, schedule: seq<nat>)
    requires PassOver(p, l) && c.Valid()
    ensures var w := Replay(p, Start(p, c), schedule);
            && (forall name :: name in c.nodes - w.nodes ==>
                  exists id ::
                    && id in c.vms - w.vms
                    && FindNode(l.nodes.value, id).Some? && FindNode(l.nodes.value, id).value.name == name)
            && |c.nodes - w.nodes| <= |c.vms - w.vms|
  {
    hide Replay, Inv, DeletedNode, MachineOf, FindNode;
    var w := Replay(p, Start(p, c), schedule);
    ReplayKeepsInv(p, c, schedule);
    forall name | name in c.nodes - w.nodes
      ensures exists i :: 0 <= i < |p.managed| && DeletedNode(p, w, i, name)
      ensures var id := MachineOf(p, w, name);
              id in c.vms - w.vms && FindNode(p.nodes, id).Some? && FindNode(p.nodes, id).value.name == name
    {
      MachineOfDeleted(p, c, w, name);
    }
    var machineOf := map name | name in c.nodes - w.nodes :: MachineOf(p, w, name);
    InjectiveIsNoLarger(c.nodes - w.nodes, c.vms - w.vms, machineOf);
  }

  lemma {:induction false} InjectiveIsNoLarger(a: set<string>, b: set<string>, f: map<string, string>)
    requires a <= f.Keys && forall x :: x in a ==> f[x] in b
    requires forall x, y :: x in a && y in a && f[x] == f[y] ==> x == y
    ensures |a| <= |b|
    decreases |a|
  {
    if a != {} {
      var x :| x in a;
      InjectiveIsNoLarger(a - {x}, b - {f[x]}, f);
    }
  }
}
