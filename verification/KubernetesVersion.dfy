/** The Kubernetes version reconciler: initialise, upgrade, never downgrade. */
module KubernetesVersion {
  import opened Prelude
  import opened SemVer

  /** How version strings are read; any reading will do for what follows. */
  type Parser = string -> Option<Version>

  /** `ready` is the KubernetesVersionReady condition. */
  datatype Status = Status(version: string, ready: bool)

  datatype Result = RequeueAfterMinutes(minutes: nat) | Failed

  class NodeClass {
    var status: Status

    constructor (status: Status)
      ensures this.status == status
    {
      this.status := status;
    }
  }

  /** The empty text is not a version. */
  ghost predicate RejectsEmpty(parse: Parser) {
    parse("").None?
  }

  /** The version in the status is known and can be compared with. */
  ghost predicate Settled(parse: Parser, st: Status) {
    st.ready && st.version != "" && parse(st.version).Some?
  }

  ghost predicate Wedged(parse: Parser, st: Status) {
    st.ready && st.version != "" && parse(st.version).None?
  }

  /** What a reconcile makes of the discovered version, `None` being a failed discovery. */
  function Step(parse: Parser, st: Status, discovered: Option<string>): Status {
    match discovered
    case None => st
    case Some(goal) =>
      if !st.ready || st.version == "" then Status(goal, true)
      else if parse(goal).None? || parse(st.version).None? then st
      else if Compare(parse(goal).value, parse(st.version).value) < 0 then Status(st.version, true)
      else Status(goal, true)
  }

  class KubernetesVersionReconciler {
    const parse: Parser

    constructor (parse: Parser)
      ensures this.parse == parse
    {
      this.parse := parse;
    }

    method Reconcile(nodeClass: NodeClass, discovered: Option<string>) returns (r: Result)
      modifies nodeClass
      ensures nodeClass.status == Step(parse, old(nodeClass.status), discovered)
      ensures r.RequeueAfterMinutes? ==> r.minutes == 15 && nodeClass.status.ready
      ensures r.Failed? <==>
                || discovered.None?
                || (old(nodeClass.status).ready && old(nodeClass.status).version != ""
                    && (parse(discovered.value).None? || parse(old(nodeClass.status).version).None?))
    {
      if discovered.None? {
        return Failed;
      }
      var goal := discovered.value;
      if nodeClass.status.ready && nodeClass.status.version != "" {
        var newVersion := parse(goal);
        if newVersion.None? {
          return Failed;
        }
        var currentVersion := parse(nodeClass.status.version);
        if currentVersion.None? {
          return Failed;
        }
        if Compare(newVersion.value, currentVersion.value) < 0 {
          goal := nodeClass.status.version;
        }
      }
      nodeClass.status := Status(goal, true);
      return RequeueAfterMinutes(15);
    }
  }

  function Run(parse: Parser, st: Status, events: seq<Option<string>>): Status
    decreases |events|
  {
    if events == [] then st
    else Step(parse, Run(parse, st, events[..|events| - 1]), events[|events| - 1])
  }

  lemma {:induction false} RunConcat(parse: Parser, st: Status, a: seq<Option<string>>, b: seq<Option<string>>)
    ensures Run(parse, st, a + b) == Run(parse, Run(parse, st, a), b)
    decreases |b|
  {
    if b == [] {
      assert a + b == a;
    } else {
      assert (a + b)[..|a + b| - 1] == a + b[..|b| - 1];
      RunConcat(parse, st, a, b[..|b| - 1]);
    }
  }

  ghost predicate Comparable(parse: Parser, e: Option<string>) {
    e.Some? && parse(e.value).Some?
  }

  /** `st` holds the last of the highest versions among `from` and the comparable events. */
  ghost predicate LastMaximum(parse: Parser, from: Status, events: seq<Option<string>>, st: Status)
    requires Settled(parse, from) && Settled(parse, st)
  {
    var top := parse(st.version).value;
    && AtMost(parse(from.version).value, top)
    && (forall i :: 0 <= i < |events| && Comparable(parse, events[i]) ==> AtMost(parse(events[i].value).value, top))
    && ((st.version == from.version && NoneReaches(parse, events, 0, top))
        || exists k :: 0 <= k < |events| && events[k] == Some(st.version) && NoneReaches(parse, events, k + 1, top))
  }

  /** No comparable event at or after position `k` is as high as `top`. */
  ghost predicate NoneReaches(parse: Parser, events: seq<Option<string>>, k: nat, top: Version) {
    forall i :: k <= i < |events| && Comparable(parse, events[i]) ==> !AtMost(top, parse(events[i].value).value)
  }

  /** From a settled status on, the status is settled for good and holds the running maximum;
      failed discoveries and versions that cannot be read are passed over. */
  lemma {:induction false} RunningMaximum(parse: Parser, from: Status, events: seq<Option<string>>)
    requires RejectsEmpty(parse) && Settled(parse, from)
    ensures Settled(parse, Run(parse, from, events))
    ensures LastMaximum(parse, from, events, Run(parse, from, events))
    decreases |events|
  {
    if events == [] {
      PrecedenceIsTotalPreorder(parse(from.version).value, parse(from.version).value, parse(from.version).value);
    } else {
      var before, last := events[..|events| - 1], events[|events| - 1];
      RunningMaximum(parse, from, before);
      MaximumGrows(parse, from, before, Run(parse, from, before), last);
      assert events == before + [last];
    }
  }

  lemma MaximumGrows(parse: Parser, from: Status, events: seq<Option<string>>, st: Status, next: Option<string>)
    requires RejectsEmpty(parse) && Settled(parse, from) && Settled(parse, st) && LastMaximum(parse, from, events, st)
    ensures var st' := Step(parse, st, next); Settled(parse, st') && LastMaximum(parse, from, events + [next], st')
  {
    var st' := Step(parse, st, next);
    var all := events + [next];
    assert forall i :: 0 <= i < |events| ==> all[i] == events[i];
    var top := parse(st.version).value;
    if Comparable(parse, next) {
      var goal := parse(next.value).value;
      PrecedenceIsTotalPreorder(parse(from.version).value, top, goal);
      PrecedenceIsTotalPreorder(goal, top, goal);
      PrecedenceIsTotalPreorder(goal, goal, goal);
      forall i | 0 <= i < |events| && Comparable(parse, events[i])
        ensures AtMost(top, goal) ==> AtMost(parse(events[i].value).value, goal)
      {
        PrecedenceIsTotalPreorder(parse(events[i].value).value, top, goal);
      }
      if AtMost(top, goal) {
        assert all[|events|] == Some(st'.version) && NoneReaches(parse, all, |events| + 1, goal);
      }
    }
    if st'.version == st.version && !(Comparable(parse, next) && AtMost(top, parse(next.value).value)) {
      assert st' == st;
      if k :| 0 <= k < |events| && events[k] == Some(st.version) && NoneReaches(parse, events, k + 1, top) {
        assert all[k] == Some(st'.version) && NoneReaches(parse, all, k + 1, top);
      }
    }
  }

  /** Between any two moments of a settled run the version does not go down. */
  lemma NeverDowngrades(parse: Parser, from: Status, events: seq<Option<string>>, i: nat, j: nat)
    requires RejectsEmpty(parse) && Settled(parse, from) && i <= j <= |events|
    ensures var earlier, later := Run(parse, from, events[..i]), Run(parse, from, events[..j]);
            && Settled(parse, earlier) && Settled(parse, later)
            && AtMost(parse(earlier.version).value, parse(later.version).value)
  {
    assert events[..j] == events[..i] + events[i..j];
    RunningMaximum(parse, from, events[..i]);
    RunningMaximum(parse, Run(parse, from, events[..i]), events[i..j]);
    RunConcat(parse, from, events[..i], events[i..j]);
  }

  /** The first version discovered by an uninitialised class is taken as it is. */
  lemma {:induction false} FirstDiscoverySettles(parse: Parser, st: Status, failures: seq<Option<string>>,
      first: string)
    requires !st.ready || st.version == ""
    requires forall e :: e in failures ==> e == None
    ensures Run(parse, st, failures + [Some(first)]) == Status(first, true)
    decreases |failures|
  {
    var all := failures + [Some(first)];
    assert all[..|all| - 1] == failures;
    OnlyFailures(parse, st, failures);
  }

  lemma {:induction false} OnlyFailures(parse: Parser, st: Status, failures: seq<Option<string>>)
    requires forall e :: e in failures ==> e == None
    ensures Run(parse, st, failures) == st
    decreases |failures|
  {
    if failures != [] {
      var before := failures[..|failures| - 1];
      assert failures[|failures| - 1] in failures && forall e :: e in before ==> e in failures;
      OnlyFailures(parse, st, before);
    }
  }

  /** A new class, from its first discovery on: if that can be read, the status is ready, its
      version was discovered, and no comparable version discovered ranks above it. */
  lemma HighestDiscovered(parse: Parser, st: Status, failures: seq<Option<string>>, first: string,
      events: seq<Option<string>>)
    requires RejectsEmpty(parse) && parse(first).Some?
    requires (!st.ready || st.version == "") && forall e :: e in failures ==> e == None
    ensures var r := Run(parse, st, failures + [Some(first)] + events);
            && Settled(parse, r)
            && Some(r.version) in [Some(first)] + events
            && AtMost(parse(first).value, parse(r.version).value)
            && forall i :: 0 <= i < |events| && Comparable(parse, events[i]) ==>
                 AtMost(parse(events[i].value).value, parse(r.version).value)
  {
    var settled := Status(first, true);
    FirstDiscoverySettles(parse, st, failures, first);
    RunConcat(parse, st, failures + [Some(first)], events);
    RunningMaximum(parse, settled, events);
    var all := [Some(first)] + events;
    assert all[0] == Some(first) && forall k :: 0 <= k < |events| ==> all[k + 1] == events[k];
  }

  /** No sequence of discoveries changes the status. */
  ghost predicate Frozen(parse: Parser, st: Status) {
    forall events :: Run(parse, st, events) == st
  }

  /** ... which is where trouble comes from: a ready class whose version cannot be read never
      changes again, whatever is discovered, while a readable one can still move. */
  lemma WedgedIffUnreadable(parse: Parser, st: Status, higher: string)
    requires st.ready && st.version != ""
    requires parse(higher).Some? && higher != st.version
    requires parse(st.version).Some? ==> AtMost(parse(st.version).value, parse(higher).value)
    ensures Wedged(parse, st) <==> Frozen(parse, st)
  {
    if Wedged(parse, st) {
      forall events ensures Run(parse, st, events) == st { StaysWedged(parse, st, events); }
    } else {
      var events := [Some(higher)];
      assert events[..0] == [];
      PrecedenceIsTotalPreorder(parse(st.version).value, parse(higher).value, parse(higher).value);
      assert Run(parse, st, events) == Step(parse, Run(parse, st, []), Some(higher));
      assert Run(parse, st, events) != st;
    }
  }

  lemma {:induction false} StaysWedged(parse: Parser, st: Status, events: seq<Option<string>>)
    requires Wedged(parse, st)
    ensures Run(parse, st, events) == st
    decreases |events|
  {
    if events != [] {
      StaysWedged(parse, st, events[..|events| - 1]);
    }
  }
}
