/** The garbage collection controller as it runs: the workers call a shared cluster in any order,
    and the error slots and the success counter are written in place. */
module GarbageCollector {
  import opened Prelude
  import opened GarbageCollection

  const COUNTER_LIMIT := 0x1_0000_0000_0000_0000

  datatype Result = Requeue(after: Time) | Failed

  /** How a call ends for its caller. */
  datatype Answer = Success | NotFound | Error

  /** The machines that exist, those of them that are powered on, and the nodes. */
  class Cluster {
    var vms: set<string>
    var on: set<string>
    var nodes: set<string>

    constructor (c: Stock)
      ensures Holds(c)
    {
      vms, on, nodes := c.vms, c.on, c.nodes;
    }

    ghost predicate Holds(c: Stock)
      reads this
    {
      vms == c.vms && on == c.on && nodes == c.nodes
    }

    method FindVm(id: string, getsThrough: bool) returns (answer: Answer)
      ensures answer == if !getsThrough then Error else if id in vms then Success else NotFound
    {
      answer := if !getsThrough then Error else if id in vms then Success else NotFound;
    }

    /** Only a machine that is on can be powered off. */
    method PowerOff(id: string, call: Call) returns (answer: Answer)
      modifies this`on
      ensures answer == if call.Ok? && id in old(on) then Success else Error
      ensures on == if call.Refused? then old(on) else old(on) - {id}
    {
      if call.Refused? || id !in on {
        return Error;
      }
      on := on - {id};
      answer := if call.Ok? then Success else Error;
    }

    /** Only a machine that is off can be destroyed. */
    method Destroy(id: string, call: Call) returns (answer: Answer)
      modifies this`vms
      ensures answer == if call.Ok? && id in old(vms) && id !in on then Success else Error
      ensures vms == if call.Refused? || id in on then old(vms) else old(vms) - {id}
    {
      if call.Refused? || id !in vms || id in on {
        return Error;
      }
      vms := vms - {id};
      answer := if call.Ok? then Success else Error;
    }

    method DeleteNode(name: string, call: Call) returns (answer: Answer)
      modifies this`nodes
      ensures answer == if !call.Ok? then Error else if name in old(nodes) then Success else NotFound
      ensures nodes == if call.Refused? then old(nodes) else old(nodes) - {name}
    {
      if call.Refused? {
        return Error;
      }
      answer := if call.Unacknowledged? then Error else if name in nodes then Success else NotFound;
      nodes := nodes - {name};
    }
  }

  ghost function CallsToGo(phase: seq<Phase>): nat {
    if phase == [] then 0 else Rank(phase[0]) + CallsToGo(phase[1..])
  }

  lemma {:induction false} FewerCalls(phase: seq<Phase>, i: nat, next: Phase)
    requires i < |phase| && Rank(next) < Rank(phase[i])
    ensures CallsToGo(phase[i := next]) < CallsToGo(phase)
  {
    if i > 0 {
      assert phase[i := next][1..] == phase[1..][i - 1 := next];
      FewerCalls(phase[1..], i - 1, next);
    }
  }

  /** Whether the context of a pass is cancelled, and after how many calls. */
  type Cancellation = Option<nat>

  class VirtualMachine {
    var successfulCount: nat

    constructor ()
      ensures successfulCount == 0
    {
      successfulCount := 0;
    }

    /** The first call of a worker: it looks for its machine, if it is to be collected. */
    method LookForVm(cluster: Cluster, p: Pass, i: nat) returns (found: bool, failed: bool)
      requires p.Valid() && i < |p.managed|
      ensures found <==> p.Looks(i) && p.managed[i].id in cluster.vms
      ensures failed <==> p.Collects(i) && !p.calls[i].lookupGetsThrough
    {
      found, failed := false, false;
      if p.Collects(i) {
        var answer := cluster.FindVm(p.managed[i].id, p.calls[i].lookupGetsThrough);
        found, failed := answer.Success?, answer.Error?;
      }
    }

    /** The last call of a worker: the first listed node with the id of its machine. */
    method CollectNode(cluster: Cluster, p: Pass, i: nat) returns (failed: bool)
      requires p.Valid() && i < |p.managed|
      modifies cluster`nodes
      ensures failed <==> p.NodeOf(i).Some? && !p.calls[i].deleteNode.Ok?
      ensures cluster.nodes == if p.NodeOf(i).Some? && !p.calls[i].deleteNode.Refused?
                               then old(cluster.nodes) - {p.NodeOf(i).value} else old(cluster.nodes)
    {
      failed := false;
      var node := FindNode(p.nodes, p.managed[i].id);
      if node.Some? {
        var answer := cluster.DeleteNode(node.value.name, p.calls[i].deleteNode);
        failed := answer.Error?;
      }
    }

    /** The next call of worker `i`, which is a step of the workers' world `w`. */
    method NextCall(cluster: Cluster, p: Pass, phase: Phase, i: nat, ghost w: World) returns (next: Phase, failed: bool)
      requires Fits(p, w) && i < |p.managed| && phase == w.phase[i] && !phase.Finished? && !w.errs[i]
      requires cluster.vms == w.vms && cluster.on == w.on && cluster.nodes == w.nodes
      modifies cluster
      ensures var w' := Step(p, w, i);
              && cluster.vms == w'.vms && cluster.on == w'.on && cluster.nodes == w'.nodes
              && w'.phase == w.phase[i := next] && w'.errs == w.errs[i := failed]
      ensures Rank(next) < Rank(phase)
    {
      var id := p.managed[i].id;
      match phase {
        case Waiting =>
          var found: bool;
          found, failed := LookForVm(cluster, p, i);
          next := if found then Found else Finished;
        case Found =>
          var answer := cluster.PowerOff(id, p.calls[i].powerOff);
          next, failed := if answer.Success? then Off else Finished, !answer.Success?;
        case Off =>
          var answer := cluster.Destroy(id, p.calls[i].destroy);
          next, failed := if answer.Success? then OnNode else Finished, !answer.Success?;
        case OnNode =>
          failed := CollectNode(cluster, p, i);
          next := Finished;
      }
    }

    /** A worker in this phase may make its next call: with the context cancelled, no worker begins any more. */
    predicate MayCall(phase: Phase, calls: nat, cancelled: Cancellation) {
      !phase.Finished? && (phase.Waiting? && cancelled.Some? ==> calls < cancelled.value)
    }

    /** The workers make their calls in any interleaving, which `schedule` tells. Those that began
        finish. If all do and there is no race, the interleaving leaves no trace in the cluster or in
        the error slots. */
    method RunWorkers(cluster: Cluster, p: Pass, slots: nat, cancelled: Cancellation, ghost c: Stock)
      returns (errs: array<bool>, ghost schedule: seq<nat>)
      requires p.Valid() && |p.managed| <= slots && c.Valid() && cluster.Holds(c)
      modifies cluster
      ensures fresh(errs) && errs.Length == slots
      ensures var w := Replay(p, Start(p, c), schedule);
              && cluster.vms == w.vms && cluster.on == w.on && cluster.nodes == w.nodes
              && (forall i :: 0 <= i < slots ==> (errs[i] <==> i < |p.managed| && w.errs[i]))
              && (forall i :: 0 <= i < |p.managed| ==>
                    w.phase[i].Finished? || (w.phase[i].Waiting? && cancelled.Some? && |schedule| >= cancelled.value))
              && (Complete(w) && NoRace(p, c) ==> Settled(p, c, w))
    {
      hide Replay, Step, Settled, NoRace, VmInv, NodeInv;
      ghost var start := Start(p, c);
      errs := new bool[slots](_ => false);
      var phase := seq(|p.managed|, _ => Waiting);
      var calls := 0;
      schedule := [];
      ReplayNone(p, start);
      while exists i :: 0 <= i < |phase| && MayCall(phase[i], calls, cancelled)
        invariant Fits(p, start) && phase == Replay(p, start, schedule).phase && calls == |schedule|
        invariant cluster.vms == Replay(p, start, schedule).vms && cluster.on == Replay(p, start, schedule).on
        invariant cluster.nodes == Replay(p, start, schedule).nodes
        invariant forall i :: 0 <= i < slots ==> (errs[i] <==> i < |phase| && Replay(p, start, schedule).errs[i])
        invariant ErrInv(p, Replay(p, start, schedule))
        decreases CallsToGo(phase)
      {
        var i :| 0 <= i < |phase| && MayCall(phase[i], calls, cancelled);
        ghost var w := Replay(p, start, schedule);
        assert ErrAt(p, w, i);
        var next, failed := NextCall(cluster, p, phase[i], i, w);
        FewerCalls(phase, i, next);
        errs[i] := failed;
        phase := phase[i := next];
        calls := calls + 1;
        ReplayOne(p, start, schedule, i);
        schedule := schedule + [i];
        ReplayKeepsInv(p, c, schedule);
      }
      ReplayKeepsInv(p, c, schedule);
      ghost var end := Replay(p, start, schedule);
      assert forall i :: 0 <= i < |phase| ==> !MayCall(phase[i], calls, cancelled);
      if Complete(end) && NoRace(p, c) {
        CompleteIsSettled(p, c, end);
      }
    }

    /** A pass. With a failing list nothing is done; otherwise the workers run, and the pass fails
        if and only if one of them does. */
    method Reconcile(cluster: Cluster, l: Lookups, p: Pass, cancelled: Cancellation, ghost c: Stock)
      returns (r: Result, errs: array<bool>, ghost schedule: seq<nat>)
      requires l.Succeed() ==> PassOver(p, l)
      requires successfulCount < COUNTER_LIMIT && c.Valid() && cluster.Holds(c)
      modifies this, cluster
      ensures !l.Succeed() ==> r.Failed? && cluster.Holds(c)
      ensures l.Succeed() ==>
                var w := Replay(p, Start(p, c), schedule);
                && cluster.vms == w.vms && cluster.on == w.on && cluster.nodes == w.nodes
                && errs.Length == |l.cloud.value|
                && (forall i :: 0 <= i < errs.Length ==> (errs[i] <==> i < |p.managed| && w.errs[i]))
                && (r.Failed? <==> exists i :: 0 <= i < |p.managed| && w.errs[i])
                && (cancelled.None? ==> Complete(w))
                && (Complete(w) && NoRace(p, c) ==> Settled(p, c, w))
      ensures successfulCount == if r.Failed? then old(successfulCount) else (old(successfulCount) + 1) % COUNTER_LIMIT
      ensures r.Requeue? ==> r.after == if successfulCount <= 20 then 10 * SECOND else 120 * SECOND
    {
      hide Replay, Settled, NoRace;
      if !l.Succeed() {
        errs := new bool[0];
        return Failed, errs, [];
      }
      errs, schedule := RunWorkers(cluster, p, |l.cloud.value|, cancelled, c);
      if exists i :: 0 <= i < errs.Length && errs[i] {
        return Failed, errs, schedule;
      }
      successfulCount := (successfulCount + 1) % COUNTER_LIMIT;
      r := Requeue(if successfulCount <= 20 then 10 * SECOND else 120 * SECOND);
    }
  }
}
