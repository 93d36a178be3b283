/** The object that owns the instances, and the walk it performs. */
module Walker {
  import opened Common
  import opened Assembly
  import opened Unwind

  /** ingress marks the members of the least closed set. */
  ghost predicate MarksClosure(c: seq<Instance>, ingress: seq<bool>) {
    && |ingress| == |c|
    && exists s :: Closed(c, s) && Least(c, s) && Marks(c, ingress, s)
  }

  ghost predicate Marks(c: seq<Instance>, ingress: seq<bool>, s: set<Identity>) {
    |ingress| == |c| && forall i :: 0 <= i < |c| ==> (ingress[i] <==> c[i].id in s)
  }

  /** What is known about the plugins: which hooks exist; the spans are theirs to choose. */
  ghost predicate Describes(p: Plugins, drain: seq<Span>, c: seq<Instance>) {
    && Sized(p, |c|) && |drain| == |c|
    && forall i :: 0 <= i < |c| ==> p.stops[i] == c[i].hasStop
  }

  function Drainers(c: seq<Instance>): (r: seq<bool>) {
    seq(|c|, i requires 0 <= i < |c| => c[i].hasDrain)
  }

  /** Waiting for something that began at `start`, no later than `limit`. */
  method WaitFor(start: int, span: Span, limit: int) returns (returned: bool, now: int)
    ensures now == WaitEnds(start, span, limit)
    ensures returned <==> InTime(start, span, limit)
  {
    returned := span.After? && start + span.time <= limit;
    if returned {
      now := start + span.time;
    } else if start <= limit {
      now := limit;
    } else {
      now := start;
    }
  }

  /** Member sets as a mask over start order. */
  method Mark(c: seq<Instance>, s: set<Identity>) returns (ingress: seq<bool>)
    ensures Marks(c, ingress, s)
  {
    ingress := [];
    for i := 0 to |c|
      invariant |ingress| == i && forall k :: 0 <= k < i ==> (ingress[k] <==> c[k].id in s)
    {
      ingress := ingress + [c[i].id in s];
    }
  }

  lemma StopsSnoc(p: Plugins, w: Walk, l: seq<nat>, i: nat, b: Bounds)
    requires Sized(p, |p.stops|) && Indices(l, |p.stops|) && i < |p.stops|
    ensures Indices(l + [i], |p.stops|)
    ensures Stops(p, w, l + [i], b) == StopOne(p, Stops(p, w, l, b), i, b)
  {
    assert (l + [i])[..|l + [i]| - 1] == l;
  }

  lemma DrainsSnoc(drain: seq<Span>, now: int, l: seq<nat>, i: nat, deadline: int)
    requires Indices(l, |drain|) && i < |drain|
    ensures Indices(l + [i], |drain|)
    ensures Drains(drain, now, l + [i], deadline) == DrainOne(drain, Drains(drain, now, l, deadline), i, deadline)
    ensures DrainRecords(drain, now, l + [i], deadline)
            == DrainRecords(drain, now, l, deadline)
               + [Record(i, DrainOutcome(drain, Drains(drain, now, l, deadline), i, deadline))]
  {
    assert (l + [i])[..|l + [i]| - 1] == l;
  }

  method DrainBounded(span: Span, start: int, deadline: int) returns (outcome: Outcome, now: int)
    ensures now == DrainOne([span], start, 0, deadline) && outcome == DrainOutcome([span], start, 0, deadline)
  {
    if start >= deadline {
      return NotAttempted, start;
    }
    var returned;
    returned, now := WaitFor(start, span, deadline);
    outcome := if returned then Finished else Abandoned;
  }

  /** Phase B from the clock `start`: one Drain at a time, in reverse start order. */
  method DrainPhase(c: seq<Instance>, drain: seq<Span>, ingress: seq<bool>, start: int, deadline: int)
    returns (now: int, report: seq<Record>)
    requires |drain| == |c| == |ingress|
    requires Indices(Reverse(Both(Not(ingress), Drainers(c)), 0), |drain|)
    ensures now == Drains(drain, start, Reverse(Both(Not(ingress), Drainers(c)), 0), deadline)
    ensures report == DrainRecords(drain, start, Reverse(Both(Not(ingress), Drainers(c)), 0), deadline)
  {
    ghost var mask := Both(Not(ingress), Drainers(c));
    now, report := start, [];
    var i := |c|;
    while i > 0
      invariant 0 <= i <= |c| && Indices(Reverse(mask, i), |drain|)
      invariant now == Drains(drain, start, Reverse(mask, i), deadline)
      invariant report == DrainRecords(drain, start, Reverse(mask, i), deadline)
    {
      i := i - 1;
      if ingress[i] || !c[i].hasDrain {
        continue;
      }
      DrainsSnoc(drain, start, Reverse(mask, i + 1), i, deadline);
      var outcome;
      outcome, now := DrainBounded(drain[i], now, deadline);
      report := report + [Record(i, outcome)];
    }
  }

  class Constructed {
    const instances: seq<Instance>
    var now: int
    var stopped: set<nat>
    var started: seq<nat>
    var records: seq<Record>

    ghost function View(): Walk
      reads this
    {
      Walk(now, stopped, started, records)
    }

    constructor (owned: seq<Instance>, at: int)
      ensures instances == owned && View() == Walk(at, {}, [], []) && StopsOnce(View())
    {
      instances, now, stopped, started, records := owned, at, {}, [], [];
    }

    /** Runs the Stop of an instance at most once and waits for it until settled. */
    method StopBounded(i: nat, p: Plugins, b: Bounds) returns (outcome: Outcome)
      requires Sized(p, |instances|) && i < |instances| && p.stops[i] == instances[i].hasStop
      requires now < b.deadline <= b.settled
      modifies this
      ensures records == old(records) && stopped == old(stopped) + {i}
      ensures outcome == StopOutcome(p, old(View()), i, b)
      ensures outcome == Skipped ==> now == old(now) && started == old(started)
      ensures outcome == Finished ==> now == old(now) + p.hook[i].time && started == old(started) + [i]
      ensures outcome == Abandoned ==> now == b.settled && started == old(started) + [i]
    {
      if i in stopped {
        return Skipped;
      }
      stopped := stopped + {i};
      if !instances[i].hasStop {
        return Skipped;
      }
      started := started + [i];
      var returned;
      returned, now := WaitFor(now, p.hook[i], b.settled);
      outcome := if returned then Finished else Abandoned;
    }

    /** One visit: the Stop, unless its phase is out of time, and then -- unless it was
        abandoned -- the join of the plugin's task scope under the walk's own deadline. */
    method Visit(i: nat, p: Plugins, b: Bounds)
      requires Sized(p, |instances|) && i < |instances| && p.stops[i] == instances[i].hasStop && Nested(b)
      modifies this
      ensures View() == StopOne(p, old(View()), i, b)
    {
      if now >= b.deadline {
        records := records + [Record(i, NotAttempted)];
        return;
      }
      var outcome := StopBounded(i, p, b);
      if outcome != Abandoned {
        var joined;
        joined, now := WaitFor(now, p.join[i], b.end);
      }
      records := records + [Record(i, outcome)];
    }

    /** The instances the mask selects, in reverse start order. */
    method StopPhase(mask: seq<bool>, p: Plugins, b: Bounds)
      requires Sized(p, |instances|) && |mask| == |instances| && Nested(b)
      requires forall i :: 0 <= i < |instances| ==> p.stops[i] == instances[i].hasStop
      requires Indices(Reverse(mask, 0), |instances|)
      modifies this
      ensures View() == Stops(p, old(View()), Reverse(mask, 0), b)
    {
      var i := |instances|;
      while i > 0
        invariant 0 <= i <= |instances| && Indices(Reverse(mask, i), |instances|)
        invariant View() == Stops(p, old(View()), Reverse(mask, i), b)
      {
        i := i - 1;
        if mask[i] {
          StopsSnoc(p, old(View()), Reverse(mask, i + 1), i, b);
          Visit(i, p, b);
        }
      }
    }

    /** The three phases, under one deadline. */
    method UnwindPhases(p: Plugins, drain: seq<Span>, end: int, budget: nat, reserve: nat)
      returns (ingress: seq<bool>, drained: seq<Record>)
      requires Describes(p, drain, instances)
      modifies this
      ensures MarksClosure(instances, ingress)
      ensures View() == PhaseC(p, drain, old(View()), ingress, Drainers(instances), end, budget, reserve)
      ensures drained == DrainReport(p, drain, old(View()), ingress, Drainers(instances), end, budget, reserve)
    {
      var closure := IngressClosure(instances);
      ingress := Mark(instances, closure);
      ReverseIndices(ingress, 0);
      ReverseIndices(Not(ingress), 0);
      ReverseIndices(Both(Not(ingress), Drainers(instances)), 0);
      var early := Early(end, reserve);
      StopPhase(ingress, p, early);
      drained := [];
      if budget > 0 {
        now, drained := DrainPhase(instances, drain, ingress, now, DrainDeadline(now, budget, early));
      }
      StopPhase(Not(ingress), p, Bounds(end, end, end));
    }
  }

  /** The plugins of a set whose Stop takes as long as `hook` says and which have no task
      scope to join. */
  function Bare(c: seq<Instance>, hook: Identity -> Span): (p: Plugins)
    ensures Sized(p, |c|) && forall i :: 0 <= i < |c| ==> p.stops[i] == c[i].hasStop
  {
    Plugins(seq(|c|, i requires 0 <= i < |c| => c[i].hasStop), seq(|c|, i requires 0 <= i < |c| => hook(c[i].id)),
            seq(|c|, i requires 0 <= i < |c| => After(0)))
  }

  function Idle(n: nat): (drain: seq<Span>)
    ensures |drain| == n
  {
    seq(n, i requires 0 <= i < n => After(0))
  }

  /** In the report every consumer stands before each of its producers. */
  ghost predicate ConsumersFirst(c: seq<Instance>, report: seq<Record>) {
    forall j, k :: 0 <= j < |report| && 0 <= k < |report| && Consumes(c, report[j].index, report[k].index) ==> j < k
  }

  ghost predicate Consumes(c: seq<Instance>, consumer: nat, producer: nat) {
    consumer < |c| && producer < |c| && c[producer].id in c[consumer].dependsOn
  }

  lemma ReportConsumersFirst(c: seq<Instance>, ingress: seq<bool>, report: seq<Record>)
    requires Layered(c) && MarksClosure(c, ingress) && Names(report, Visits(ingress))
    ensures ConsumersFirst(c, report)
  {
    var s :| Closed(c, s) && Least(c, s) && Marks(c, ingress, s);
    forall j, k | 0 <= j < |report| && 0 <= k < |report| && Consumes(c, report[j].index, report[k].index)
      ensures j < k {
      ConsumerFirst(c, s, ingress, j, k);
    }
  }

  /** Takes everything owned down without a drain phase or a reserve. */
  method RollBack(c: seq<Instance>, hook: Identity -> Span, start: int, timeout: nat)
    returns (ingress: seq<bool>, report: seq<Record>, finish: int)
    ensures MarksClosure(c, ingress) && Names(report, Visits(ingress)) && start <= finish <= start + timeout
  {
    var owned := new Constructed(c, start);
    var p, drain := Bare(c, hook), Idle(|c|);
    ghost var before := owned.View();
    var drained;
    ingress, drained := owned.UnwindPhases(p, drain, start + timeout, 0, 0);
    WalkReports(p, drain, before, owned.View(), ingress, Drainers(c), start + timeout);
    report, finish := owned.records, owned.now;
  }

  lemma WalkReports(p: Plugins, drain: seq<Span>, w: Walk, v: Walk, ingress: seq<bool>, drains: seq<bool>, end: int)
    requires Input(p, drain, ingress, drains) && w.records == [] && w.now <= end
    requires v == PhaseC(p, drain, w, ingress, drains, end, 0, 0)
    ensures Names(v.records, Visits(ingress)) && w.now <= v.now <= end
  {
    WalkBounded(p, drain, w, ingress, drains, end, 0, 0);
    ReportIsVisits(p, drain, w, ingress, drains, end, 0, 0);
  }

  /** A construction that fails takes down everything it owns, the instance whose Init failed
      included, within its budget: every owned instance is in the report exactly once, a
      consumer before its producers. */
  method ConstructOrUnwind(order: seq<Identity>, plan: map<Identity, Planned>, does: map<Identity, Behaviour>,
                           hook: Identity -> Span, start: int, timeout: nat)
    returns (b: Built, report: seq<Record>, finish: int)
    requires Distinct(order)
    requires forall i :: 0 <= i < |order| ==> order[i] in plan && order[i] in does
    ensures Progress(b, order, plan, does) && InOrder(b, order)
    ensures b.fault.None? <==> ProducersFirst(order, plan) && Fine(order, does)
    ensures b.fault.None? ==> report == [] && finish == start
    ensures b.fault.Some? ==> EachOnce(report, |b.owned|) && ConsumersFirst(b.owned, report)
    ensures start <= finish <= start + timeout
  {
    b := Construct(order, plan, does);
    report, finish := [], start;
    if b.fault.Some? {
      var ingress;
      ingress, report, finish := RollBack(b.owned, hook, start, timeout);
      ReportConsumersFirst(b.owned, ingress, report);
      ReportEachOnce(ingress, report);
    }
  }

  ghost predicate Listed(report: seq<Record>, i: nat) { exists k :: 0 <= k < |report| && report[k].index == i }

  ghost predicate EachOnce(report: seq<Record>, n: nat) {
    && (forall i: nat :: i < n ==> Listed(report, i))
    && (forall j, k :: 0 <= j < k < |report| ==> report[j].index != report[k].index)
    && (forall k :: 0 <= k < |report| ==> report[k].index < n)
  }

  lemma ReportEachOnce(ingress: seq<bool>, report: seq<Record>)
    requires Names(report, Visits(ingress))
    ensures EachOnce(report, |ingress|)
  {
    EveryInstanceOnce(ingress);
    var visits := Visits(ingress);
    forall i: nat | i < |ingress| ensures Listed(report, i) {
      assert i in visits;
      var k :| 0 <= k < |visits| && visits[k] == i;
      assert report[k].index == i;
    }
    assert forall k :: 0 <= k < |visits| ==> visits[k] in visits;
  }
}
