/** The reverse walk: phase A stops the ingress closure, phase B drains what is left,
    phase C stops it.  Instances are named by their start index; durations of hooks and of
    task joins are arbitrary; only they make the clock advance. */
module Unwind {
  import opened Assembly

  /** How long something would run if left alone. */
  datatype Span = After(time: nat) | Never

  datatype Outcome = Skipped | Finished | Abandoned | NotAttempted

  datatype Record = Record(index: nat, outcome: Outcome)

  /** The clock, the instances whose Stop was consumed, the Stop hooks started, the report. */
  datatype Walk = Walk(now: int, stopped: set<nat>, started: seq<nat>, records: seq<Record>)

  /** deadline bounds the hook and its start, settled the wait for it, end the whole walk. */
  datatype Bounds = Bounds(deadline: int, settled: int, end: int)

  /** Has index i a Stop hook, how long does each run, how long does each task scope take
      to join? */
  datatype Plugins = Plugins(stops: seq<bool>, hook: seq<Span>, join: seq<Span>)

  predicate Sized(p: Plugins, n: nat) { |p.stops| == |p.hook| == |p.join| == n }

  // ---------------------------------------------------------------------------
  // One Stop
  // ---------------------------------------------------------------------------

  predicate InTime(start: int, s: Span, limit: int) { s.After? && start + s.time <= limit }

  /** When the wait for something started at start is over. */
  function WaitEnds(start: int, s: Span, limit: int): (t: int)
    ensures start <= t && (t == start || t <= limit)
  {
    if InTime(start, s, limit) then start + s.time else if start <= limit then limit else start
  }

  predicate Live(p: Plugins, w: Walk, i: nat)
    requires i < |p.stops|
  {
    p.stops[i] && i !in w.stopped
  }

  function StopOutcome(p: Plugins, w: Walk, i: nat, b: Bounds): Outcome
    requires Sized(p, |p.stops|) && i < |p.stops|
  {
    if w.now >= b.deadline then NotAttempted
    else if !Live(p, w, i) then Skipped
    else if InTime(w.now, p.hook[i], b.settled) then Finished
    else Abandoned
  }

  /** The clock after the visit: the Stop, then the join of its task scope. */
  function ClockAfter(p: Plugins, w: Walk, i: nat, b: Bounds): int
    requires Sized(p, |p.stops|) && i < |p.stops|
  {
    match StopOutcome(p, w, i, b)
    case NotAttempted => w.now
    case Skipped => WaitEnds(w.now, p.join[i], b.end)
    case Finished => WaitEnds(w.now + p.hook[i].time, p.join[i], b.end)
    case Abandoned => WaitEnds(w.now, Never, b.settled)
  }

  function StopOne(p: Plugins, w: Walk, i: nat, b: Bounds): Walk
    requires Sized(p, |p.stops|) && i < |p.stops|
  {
    var outcome := StopOutcome(p, w, i, b);
    var records := w.records + [Record(i, outcome)];
    var now := ClockAfter(p, w, i, b);
    match outcome
    case NotAttempted => w.(records := records)
    case Skipped => w.(now := now, stopped := w.stopped + {i}, records := records)
    case Finished => w.(now := now, stopped := w.stopped + {i}, started := w.started + [i], records := records)
    case Abandoned => w.(now := now, stopped := w.stopped + {i}, started := w.started + [i], records := records)
  }

  ghost predicate Indices(l: seq<nat>, n: nat) { forall k :: 0 <= k < |l| ==> l[k] < n }

  function Stops(p: Plugins, w: Walk, l: seq<nat>, b: Bounds): Walk
    requires Sized(p, |p.stops|) && Indices(l, |p.stops|)
  {
    if l == [] then w else StopOne(p, Stops(p, w, l[..|l| - 1], b), l[|l| - 1], b)
  }

  // ---------------------------------------------------------------------------
  // One Drain
  // ---------------------------------------------------------------------------

  function DrainOne(drain: seq<Span>, now: int, i: nat, deadline: int): int
    requires i < |drain|
  {
    if now >= deadline then now else WaitEnds(now, drain[i], deadline)
  }

  function DrainOutcome(drain: seq<Span>, now: int, i: nat, deadline: int): Outcome
    requires i < |drain|
  {
    if now >= deadline then NotAttempted else if InTime(now, drain[i], deadline) then Finished else Abandoned
  }

  function Drains(drain: seq<Span>, now: int, l: seq<nat>, deadline: int): int
    requires Indices(l, |drain|)
  {
    if l == [] then now else DrainOne(drain, Drains(drain, now, l[..|l| - 1], deadline), l[|l| - 1], deadline)
  }

  function DrainRecords(drain: seq<Span>, now: int, l: seq<nat>, deadline: int): seq<Record>
    requires Indices(l, |drain|)
  {
    if l == [] then []
    else
      var init := l[..|l| - 1];
      DrainRecords(drain, now, init, deadline)
        + [Record(l[|l| - 1], DrainOutcome(drain, Drains(drain, now, init, deadline), l[|l| - 1], deadline))]
  }

  // ---------------------------------------------------------------------------
  // The three phases
  // ---------------------------------------------------------------------------

  /** The indices from the last down to low that the mask selects. */
  function Reverse(mask: seq<bool>, low: nat): (l: seq<nat>)
    ensures Indices(l, |mask|)
    decreases |mask| - low
  {
    if low >= |mask| then []
    else if mask[low] then Reverse(mask, low + 1) + [low]
    else Reverse(mask, low + 1)
  }

  function Not(mask: seq<bool>): (r: seq<bool>) {
    seq(|mask|, i requires 0 <= i < |mask| => !mask[i])
  }

  function Both(x: seq<bool>, y: seq<bool>): (r: seq<bool>)
    requires |x| == |y|
  {
    seq(|x|, i requires 0 <= i < |x| => x[i] && y[i])
  }

  function Early(end: int, reserve: nat): Bounds {
    if reserve > 0 then Bounds(end - reserve, end - reserve + reserve / 4, end) else Bounds(end, end, end)
  }

  ghost predicate Descending(l: seq<nat>) { forall j, k :: 0 <= j < k < |l| ==> l[j] > l[k] }

  lemma {:induction false} ReverseIndices(mask: seq<bool>, low: nat)
    ensures Indices(Reverse(mask, low), |mask|)
    ensures forall i: nat :: i in Reverse(mask, low) <==> low <= i < |mask| && mask[i]
    ensures Descending(Reverse(mask, low))
    decreases |mask| - low
  {
    if low < |mask| {
      ReverseIndices(mask, low + 1);
      var rest := Reverse(mask, low + 1);
      if mask[low] {
        assert forall k :: 0 <= k < |rest| ==> rest[k] in rest;
        assert Reverse(mask, low) == rest + [low];
        assert low in Reverse(mask, low) by {
          assert (rest + [low])[|rest|] == low;
        }
      } else {
        assert Reverse(mask, low) == rest;
      }
    }
  }

  /** When phase B is given its budget and how far it gets. */
  function DrainDeadline(now: int, budget: nat, early: Bounds): int {
    if now + budget <= early.deadline then now + budget else early.deadline
  }

  ghost predicate Input(p: Plugins, drain: seq<Span>, ingress: seq<bool>, drains: seq<bool>) {
    Sized(p, |ingress|) && |drain| == |ingress| && |drains| == |ingress|
  }

  ghost function PhaseA(p: Plugins, w: Walk, ingress: seq<bool>, end: int, reserve: nat): Walk
    requires Sized(p, |ingress|)
  {
    ReverseIndices(ingress, 0);
    Stops(p, w, Reverse(ingress, 0), Early(end, reserve))
  }

  /** The clock when phase C begins. */
  ghost function PhaseB(p: Plugins, drain: seq<Span>, w: Walk, ingress: seq<bool>, drains: seq<bool>,
                        end: int, budget: nat, reserve: nat): int
    requires Input(p, drain, ingress, drains)
  {
    var a := PhaseA(p, w, ingress, end, reserve);
    if budget == 0 then a.now
    else
      ReverseIndices(Both(Not(ingress), drains), 0);
      Drains(drain, a.now, Reverse(Both(Not(ingress), drains), 0), DrainDeadline(a.now, budget, Early(end, reserve)))
  }

  ghost function DrainReport(p: Plugins, drain: seq<Span>, w: Walk, ingress: seq<bool>, drains: seq<bool>,
                             end: int, budget: nat, reserve: nat): seq<Record>
    requires Input(p, drain, ingress, drains)
  {
    var a := PhaseA(p, w, ingress, end, reserve);
    if budget == 0 then []
    else
      ReverseIndices(Both(Not(ingress), drains), 0);
      DrainRecords(drain, a.now, Reverse(Both(Not(ingress), drains), 0),
                   DrainDeadline(a.now, budget, Early(end, reserve)))
  }

  ghost function PhaseC(p: Plugins, drain: seq<Span>, w: Walk, ingress: seq<bool>, drains: seq<bool>,
                        end: int, budget: nat, reserve: nat): Walk
    requires Input(p, drain, ingress, drains)
  {
    ReverseIndices(Not(ingress), 0);
    Stops(p, PhaseA(p, w, ingress, end, reserve).(now := PhaseB(p, drain, w, ingress, drains, end, budget, reserve)),
          Reverse(Not(ingress), 0), Bounds(end, end, end))
  }

  // ---------------------------------------------------------------------------
  // Time
  // ---------------------------------------------------------------------------

  ghost predicate Nested(b: Bounds) { b.deadline <= b.settled <= b.end }

  predicate Below(t: int, now: int, limit: int) { now <= t && (t <= limit || t == now) }

  lemma StopBounded(p: Plugins, w: Walk, i: nat, b: Bounds)
    requires Sized(p, |p.stops|) && i < |p.stops| && Nested(b)
    ensures Below(StopOne(p, w, i, b).now, w.now, b.end)
  {}

  lemma {:induction false} StopsBounded(p: Plugins, w: Walk, l: seq<nat>, b: Bounds)
    requires Sized(p, |p.stops|) && Indices(l, |p.stops|) && Nested(b)
    ensures Below(Stops(p, w, l, b).now, w.now, b.end)
  {
    if l != [] {
      StopsBounded(p, w, l[..|l| - 1], b);
      StopBounded(p, Stops(p, w, l[..|l| - 1], b), l[|l| - 1], b);
    }
  }

  lemma {:induction false} DrainsBounded(drain: seq<Span>, now: int, l: seq<nat>, deadline: int)
    requires Indices(l, |drain|)
    ensures Below(Drains(drain, now, l, deadline), now, deadline)
  {
    if l != [] {
      DrainsBounded(drain, now, l[..|l| - 1], deadline);
    }
  }

  lemma PhaseBBounded(p: Plugins, drain: seq<Span>, w: Walk, ingress: seq<bool>, drains: seq<bool>,
                      end: int, budget: nat, reserve: nat)
    requires Input(p, drain, ingress, drains)
    ensures Below(PhaseB(p, drain, w, ingress, drains, end, budget, reserve),
                  PhaseA(p, w, ingress, end, reserve).now, Early(end, reserve).deadline)
  {
    var a := PhaseA(p, w, ingress, end, reserve);
    var list := Reverse(Both(Not(ingress), drains), 0);
    ReverseIndices(Both(Not(ingress), drains), 0);
    DrainsBounded(drain, a.now, list, DrainDeadline(a.now, budget, Early(end, reserve)));
  }

  /** The whole walk is over by its deadline, whatever hooks and task scopes do: none of
      them need ever return.  A walk that begins after its deadline takes no time. */
  lemma WalkBounded(p: Plugins, drain: seq<Span>, w: Walk, ingress: seq<bool>, drains: seq<bool>,
                    end: int, budget: nat, reserve: nat)
    requires Input(p, drain, ingress, drains)
    ensures Below(PhaseC(p, drain, w, ingress, drains, end, budget, reserve).now, w.now, end)
  {
    ReverseIndices(ingress, 0);
    ReverseIndices(Not(ingress), 0);
    StopsBounded(p, w, Reverse(ingress, 0), Early(end, reserve));
    PhaseBBounded(p, drain, w, ingress, drains, end, budget, reserve);
    var a := PhaseA(p, w, ingress, end, reserve).(now := PhaseB(p, drain, w, ingress, drains, end, budget, reserve));
    StopsBounded(p, a, Reverse(Not(ingress), 0), Bounds(end, end, end));
  }

  // ---------------------------------------------------------------------------
  // Order
  // ---------------------------------------------------------------------------

  /** The visits of phases A and C. */
  function Visits(ingress: seq<bool>): seq<nat> {
    Reverse(ingress, 0) + Reverse(Not(ingress), 0)
  }

  lemma OneRecord(p: Plugins, w: Walk, i: nat, b: Bounds)
    requires Sized(p, |p.stops|) && i < |p.stops|
    ensures StopOne(p, w, i, b).records == w.records + [Record(i, StopOutcome(p, w, i, b))]
  {}

  lemma {:induction false} RecordsFollow(p: Plugins, w: Walk, l: seq<nat>, b: Bounds)
    requires Sized(p, |p.stops|) && Indices(l, |p.stops|)
    ensures var r := Stops(p, w, l, b).records;
            && |r| == |w.records| + |l| && r[..|w.records|] == w.records
            && forall k :: 0 <= k < |l| ==> r[|w.records| + k].index == l[k]
  {
    if l != [] {
      RecordsFollow(p, w, l[..|l| - 1], b);
      OneRecord(p, Stops(p, w, l[..|l| - 1], b), l[|l| - 1], b);
    }
  }

  /** records lists the visits in l, and nothing else. */
  ghost predicate Names(records: seq<Record>, l: seq<nat>) {
    |records| == |l| && forall k :: 0 <= k < |l| ==> records[k].index == l[k]
  }

  lemma NamesMore(p: Plugins, w: Walk, l: seq<nat>, m: seq<nat>, b: Bounds)
    requires Sized(p, |p.stops|) && Indices(m, |p.stops|) && Names(w.records, l)
    ensures Names(Stops(p, w, m, b).records, l + m)
  {
    RecordsFollow(p, w, m, b);
    var r := Stops(p, w, m, b).records;
    forall k | 0 <= k < |l + m| ensures r[k].index == (l + m)[k] {
      if k < |l| {
        assert r[k] == r[..|l|][k];
      } else {
        assert r[k] == r[|l| + (k - |l|)];
      }
    }
  }

  /** The report names every instance exactly once, in visiting order. */
  lemma ReportIsVisits(p: Plugins, drain: seq<Span>, w: Walk, ingress: seq<bool>, drains: seq<bool>,
                       end: int, budget: nat, reserve: nat)
    requires Input(p, drain, ingress, drains) && w.records == []
    ensures Names(PhaseC(p, drain, w, ingress, drains, end, budget, reserve).records, Visits(ingress))
  {
    ReverseIndices(ingress, 0);
    ReverseIndices(Not(ingress), 0);
    NamesMore(p, w, [], Reverse(ingress, 0), Early(end, reserve));
    assert [] + Reverse(ingress, 0) == Reverse(ingress, 0);
    var a := PhaseA(p, w, ingress, end, reserve).(now := PhaseB(p, drain, w, ingress, drains, end, budget, reserve));
    NamesMore(p, a, Reverse(ingress, 0), Reverse(Not(ingress), 0), Bounds(end, end, end));
  }

  lemma {:induction false} DrainsAreNamed(drain: seq<Span>, now: int, l: seq<nat>, deadline: int)
    requires Indices(l, |drain|)
    ensures Names(DrainRecords(drain, now, l, deadline), l)
  {
    if l != [] {
      DrainsAreNamed(drain, now, l[..|l| - 1], deadline);
    }
  }

  /** Phase B names, with a budget, exactly the drainers outside the ingress closure, a
      consumer before its producers; without one it names nobody. */
  lemma DrainReportNames(p: Plugins, drain: seq<Span>, w: Walk, ingress: seq<bool>, drains: seq<bool>,
                         end: int, budget: nat, reserve: nat, i: nat)
    requires Input(p, drain, ingress, drains) && i < |ingress|
    ensures var r := DrainReport(p, drain, w, ingress, drains, end, budget, reserve);
            && ((exists k :: 0 <= k < |r| && r[k].index == i) <==> budget > 0 && !ingress[i] && drains[i])
            && (forall j, k :: 0 <= j < k < |r| ==> r[j].index > r[k].index)
  {
    var list := Reverse(Both(Not(ingress), drains), 0);
    ReverseIndices(Both(Not(ingress), drains), 0);
    var a := PhaseA(p, w, ingress, end, reserve);
    DrainsAreNamed(drain, a.now, list, DrainDeadline(a.now, budget, Early(end, reserve)));
    var r := DrainReport(p, drain, w, ingress, drains, end, budget, reserve);
    if budget > 0 && i in list {
      var k :| 0 <= k < |list| && list[k] == i;
      assert r[k].index == i;
    }
  }

  lemma EveryInstanceOnce(ingress: seq<bool>)
    ensures forall i: nat :: i in Visits(ingress) <==> i < |ingress|
    ensures forall j, k :: 0 <= j < k < |Visits(ingress)| ==> Visits(ingress)[j] != Visits(ingress)[k]
  {
    ReverseIndices(ingress, 0);
    ReverseIndices(Not(ingress), 0);
    var a, c := Reverse(ingress, 0), Reverse(Not(ingress), 0);
    forall j, k | 0 <= j < k < |Visits(ingress)| ensures Visits(ingress)[j] != Visits(ingress)[k] {
      if j < |a| <= k {
        assert a[j] in a && c[k - |a|] in c;
      }
    }
    forall i: nat | i < |ingress| ensures i in Visits(ingress) {
      if !ingress[i] {
        assert i in c;
      }
    }
  }

  /** Consumer i (a dependent of producer j) precedes it in the visits: an instance's
      dependents are stopped, or given up on, before it. */
  lemma ConsumerFirst(c: seq<Instance>, closure: set<Identity>, ingress: seq<bool>, j: nat, k: nat)
    requires Layered(c) && Closed(c, closure) && |ingress| == |c|
    requires forall i :: 0 <= i < |c| ==> (ingress[i] <==> c[i].id in closure)
    requires j < |Visits(ingress)| && k < |Visits(ingress)|
    requires Visits(ingress)[j] < |c| && Visits(ingress)[k] < |c|
    requires c[Visits(ingress)[k]].id in c[Visits(ingress)[j]].dependsOn
    ensures j < k
  {
    var consumer, producer := Visits(ingress)[j], Visits(ingress)[k];
    ProducerStartsFirst(c, consumer, producer);
    assert Respects(c[consumer], closure);
    assert ingress[producer] ==> ingress[consumer];
    ReverseIndices(ingress, 0);
    ReverseIndices(Not(ingress), 0);
    PositionInVisits(ingress, j);
    PositionInVisits(ingress, k);
  }

  lemma ProducerStartsFirst(c: seq<Instance>, consumer: nat, producer: nat)
    requires Layered(c) && consumer < |c| && producer < |c|
    requires c[producer].id in c[consumer].dependsOn
    ensures producer < consumer
  {
    assert HasOwned(c[..consumer], c[producer].id);
  }

  lemma PositionInVisits(ingress: seq<bool>, j: nat)
    requires j < |Visits(ingress)|
    ensures Visits(ingress)[j] < |ingress|
    ensures j < |Reverse(ingress, 0)| <==> ingress[Visits(ingress)[j]]
  {
    ReverseIndices(ingress, 0);
    ReverseIndices(Not(ingress), 0);
    if j < |Reverse(ingress, 0)| {
      assert Reverse(ingress, 0)[j] in Reverse(ingress, 0);
    } else {
      assert Reverse(Not(ingress), 0)[j - |Reverse(ingress, 0)|] in Reverse(Not(ingress), 0);
    }
  }

  // ---------------------------------------------------------------------------
  // Each Stop at most once, and never past the deadline
  // ---------------------------------------------------------------------------

  ghost predicate StopsOnce(w: Walk) {
    && (forall k :: 0 <= k < |w.started| ==> w.started[k] in w.stopped)
    && (forall j, k :: 0 <= j < k < |w.started| ==> w.started[j] != w.started[k])
  }

  /** However many walks visit an instance, its Stop is started at most once. */
  lemma {:induction false} StartedOnce(p: Plugins, w: Walk, l: seq<nat>, b: Bounds)
    requires Sized(p, |p.stops|) && Indices(l, |p.stops|) && StopsOnce(w)
    ensures StopsOnce(Stops(p, w, l, b))
  {
    if l != [] {
      StartedOnce(p, w, l[..|l| - 1], b);
    }
  }

  /** An abandoned Stop has spent the deadline that bounds its phase, so nothing after it in
      that phase is attempted: hooks of one phase never overlap. */
  lemma {:induction false} NothingAfterAbandoned(p: Plugins, w: Walk, l: seq<nat>, b: Bounds, j: nat, k: nat)
    requires Sized(p, |p.stops|) && Indices(l, |p.stops|) && Nested(b) && j < k < |l|
    requires |Stops(p, w, l, b).records| == |w.records| + |l|
    requires Stops(p, w, l, b).records[|w.records| + j].outcome == Abandoned
    ensures Stops(p, w, l, b).records[|w.records| + k].outcome == NotAttempted
  {
    var init := l[..|l| - 1];
    RecordsFollow(p, w, init, b);
    if k < |init| {
      NothingAfterAbandoned(p, w, init, b, j, k);
    } else {
      AbandonedSpends(p, w, init, b, j);
    }
  }

  lemma {:induction false} AbandonedSpends(p: Plugins, w: Walk, l: seq<nat>, b: Bounds, j: nat)
    requires Sized(p, |p.stops|) && Indices(l, |p.stops|) && Nested(b) && j < |l|
    requires |Stops(p, w, l, b).records| == |w.records| + |l|
    requires Stops(p, w, l, b).records[|w.records| + j].outcome == Abandoned
    ensures Stops(p, w, l, b).now >= b.deadline
  {
    var init := l[..|l| - 1];
    RecordsFollow(p, w, init, b);
    StopBounded(p, Stops(p, w, init, b), l[|l| - 1], b);
    if j < |init| {
      AbandonedSpends(p, w, init, b, j);
    }
  }

  /** The same of the drains: an abandoned one has spent the deadline of all of them. */
  lemma {:induction false} NoDrainAfterAbandoned(drain: seq<Span>, now: int, l: seq<nat>, deadline: int, j: nat, k: nat)
    requires Indices(l, |drain|) && j < k < |l| == |DrainRecords(drain, now, l, deadline)|
    requires DrainRecords(drain, now, l, deadline)[j].outcome == Abandoned
    ensures DrainRecords(drain, now, l, deadline)[k].outcome == NotAttempted
  {
    var init := l[..|l| - 1];
    DrainsAreNamed(drain, now, init, deadline);
    if k < |init| {
      NoDrainAfterAbandoned(drain, now, init, deadline, j, k);
    } else {
      AbandonedDrainSpends(drain, now, init, deadline, j);
    }
  }

  lemma {:induction false} AbandonedDrainSpends(drain: seq<Span>, now: int, l: seq<nat>, deadline: int, j: nat)
    requires Indices(l, |drain|) && j < |l| == |DrainRecords(drain, now, l, deadline)|
    requires DrainRecords(drain, now, l, deadline)[j].outcome == Abandoned
    ensures Drains(drain, now, l, deadline) >= deadline
  {
    var init := l[..|l| - 1];
    DrainsAreNamed(drain, now, init, deadline);
    if j < |init| {
      AbandonedDrainSpends(drain, now, init, deadline, j);
    }
  }

  /** The Stop hooks started are the ones reported finished or abandoned, in that order. */
  function Attempted(records: seq<Record>): seq<nat> {
    if records == [] then []
    else
      var last := records[|records| - 1];
      Attempted(records[..|records| - 1]) + if last.outcome in {Finished, Abandoned} then [last.index] else []
  }

  /** The instances whose visit consumed their Stop. */
  function Consumed(records: seq<Record>): set<nat> {
    if records == [] then {}
    else
      var last := records[|records| - 1];
      Consumed(records[..|records| - 1]) + if last.outcome == NotAttempted then {} else {last.index}
  }

  /** A Stop that was not attempted is still there for a later walk; any other is consumed. */
  lemma {:induction false} ConsumedAreStopped(p: Plugins, w: Walk, l: seq<nat>, b: Bounds)
    requires Sized(p, |p.stops|) && Indices(l, |p.stops|) && w.stopped == Consumed(w.records)
    ensures Stops(p, w, l, b).stopped == Consumed(Stops(p, w, l, b).records)
  {
    if l != [] {
      ConsumedAreStopped(p, w, l[..|l| - 1], b);
      OneRecord(p, Stops(p, w, l[..|l| - 1], b), l[|l| - 1], b);
      var before, after := Stops(p, w, l[..|l| - 1], b).records, Stops(p, w, l, b).records;
      assert after[..|after| - 1] == before;
    }
  }

  lemma {:induction false} StartedAreReported(p: Plugins, w: Walk, l: seq<nat>, b: Bounds)
    requires Sized(p, |p.stops|) && Indices(l, |p.stops|) && w.started == Attempted(w.records)
    ensures Stops(p, w, l, b).started == Attempted(Stops(p, w, l, b).records)
  {
    if l != [] {
      StartedAreReported(p, w, l[..|l| - 1], b);
      OneRecord(p, Stops(p, w, l[..|l| - 1], b), l[|l| - 1], b);
      var before, after := Stops(p, w, l[..|l| - 1], b).records, Stops(p, w, l, b).records;
      assert after[..|after| - 1] == before;
    }
  }
}
