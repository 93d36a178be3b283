/** A shutdown with time enough: when the hooks and joins fit the budgets, every Stop and every
    Drain runs to its end. */
module UnwindInTime {
  import opened Unwind
  import opened Reserve

  /** Everything returns. */
  ghost predicate Returning(p: Plugins) {
    && Sized(p, |p.stops|)
    && forall i :: 0 <= i < |p.stops| ==> p.hook[i].After? && p.join[i].After?
  }

  /** How long the visit of i takes when nothing is cut short. */
  function VisitTime(p: Plugins, w: Walk, i: nat): nat
    requires Sized(p, |p.stops|) && i < |p.stops| && p.hook[i].After? && p.join[i].After?
  {
    (if Live(p, w, i) then p.hook[i].time else 0) + p.join[i].time
  }

  ghost function VisitsTime(p: Plugins, w: Walk, l: seq<nat>): nat
    requires Returning(p) && Indices(l, |p.stops|)
  {
    if l == [] then 0 else VisitsTime(p, w, l[..|l| - 1]) + VisitTime(p, w, l[|l| - 1])
  }

  lemma VisitInTime(p: Plugins, w: Walk, i: nat, b: Bounds)
    requires Returning(p) && i < |p.stops| && Nested(b) && w.now + VisitTime(p, w, i) < b.deadline
    ensures var t := StopOne(p, w, i, b);
            && t.now == w.now + VisitTime(p, w, i)
            && t.records == w.records + [Expected(p, w, i)]
            && t.started == (if Live(p, w, i) then w.started + [i] else w.started)
  {}

  ghost function Expected(p: Plugins, w: Walk, i: nat): Record
    requires i < |p.stops|
  {
    Record(i, if Live(p, w, i) then Finished else Skipped)
  }

  /** What the visits of l, made in time, report and start. */
  ghost predicate Done(p: Plugins, w: Walk, t: Walk, l: seq<nat>)
    requires Sized(p, |p.stops|) && Indices(l, |p.stops|)
  {
    && |t.records| == |w.records| + |l|
    && (forall k :: |w.records| <= k < |t.records| ==> t.records[k] == Expected(p, w, l[k - |w.records|]))
    && (forall i: nat :: i in t.started <==> i in w.started || (i in l && i < |p.stops| && Live(p, w, i)))
  }

  lemma DoneSnoc(p: Plugins, w: Walk, t: Walk, l: seq<nat>, i: nat, t': Walk)
    requires Sized(p, |p.stops|) && Indices(l, |p.stops|) && i < |p.stops| && Done(p, w, t, l)
    requires t'.records == t.records + [Expected(p, w, i)]
    requires t'.started == (if Live(p, w, i) then t.started + [i] else t.started)
    ensures Done(p, w, t', l + [i])
  {}

  lemma {:induction false} VisitsInTime(p: Plugins, w: Walk, l: seq<nat>, b: Bounds)
    requires Returning(p) && Indices(l, |p.stops|) && AllDifferent(l) && Nested(b)
    requires w.now + VisitsTime(p, w, l) < b.deadline
    ensures Stops(p, w, l, b).now == w.now + VisitsTime(p, w, l)
    ensures Done(p, w, Stops(p, w, l, b), l)
  {
    if l != [] {
      var init, i := l[..|l| - 1], l[|l| - 1];
      Earlier(l);
      VisitsInTime(p, w, init, b);
      OthersUntouched(p, w, init, b, i);
      VisitInTime(p, Stops(p, w, init, b), i, b);
      assert l == init + [i];
      DoneSnoc(p, w, Stops(p, w, init, b), init, i, Stops(p, w, l, b));
    }
  }

  ghost function DrainsTime(drain: seq<Span>, l: seq<nat>): nat
    requires Indices(l, |drain|) && forall k :: 0 <= k < |drain| ==> drain[k].After?
  {
    if l == [] then 0 else DrainsTime(drain, l[..|l| - 1]) + drain[l[|l| - 1]].time
  }

  lemma {:induction false} DrainsInTime(drain: seq<Span>, now: int, l: seq<nat>, deadline: int)
    requires Indices(l, |drain|) && forall k :: 0 <= k < |drain| ==> drain[k].After?
    requires now + DrainsTime(drain, l) < deadline
    ensures Drains(drain, now, l, deadline) == now + DrainsTime(drain, l)
    ensures forall k :: 0 <= k < |DrainRecords(drain, now, l, deadline)| ==>
                          DrainRecords(drain, now, l, deadline)[k].outcome == Finished
  {
    if l != [] {
      DrainsInTime(drain, now, l[..|l| - 1], deadline);
    }
  }

  // ---------------------------------------------------------------------------
  // The whole walk
  // ---------------------------------------------------------------------------

  ghost function TimeA(p: Plugins, w: Walk, ingress: seq<bool>): nat
    requires Returning(p) && |p.stops| == |ingress|
  {
    VisitsTime(p, w, Reverse(ingress, 0))
  }

  ghost function TimeC(p: Plugins, w: Walk, ingress: seq<bool>): nat
    requires Returning(p) && |p.stops| == |ingress|
  {
    VisitsTime(p, w, Reverse(Not(ingress), 0))
  }

  ghost function TimeB(drain: seq<Span>, ingress: seq<bool>, drains: seq<bool>, budget: nat): nat
    requires |drain| == |ingress| == |drains| && forall k :: 0 <= k < |drain| ==> drain[k].After?
  {
    if budget == 0 then 0 else DrainsTime(drain, Reverse(Both(Not(ingress), drains), 0))
  }

  /** The three phases fit: A before the early deadline, B inside its budget and before it
      too, C before the end. */
  ghost predicate Fits(p: Plugins, drain: seq<Span>, w: Walk, ingress: seq<bool>, drains: seq<bool>, end: int,
                       budget: nat, reserve: nat)
    requires Input(p, drain, ingress, drains) && Returning(p) && forall k :: 0 <= k < |drain| ==> drain[k].After?
  {
    var a, b, c := TimeA(p, w, ingress), TimeB(drain, ingress, drains, budget), TimeC(p, w, ingress);
    && w.now + a + b < Early(end, reserve).deadline && (budget > 0 ==> b < budget)
    && w.now + a + b + c < end
  }

  lemma PhaseAInTime(p: Plugins, w: Walk, ingress: seq<bool>, end: int, reserve: nat)
    requires Returning(p) && |p.stops| == |ingress| && w.now + TimeA(p, w, ingress) < Early(end, reserve).deadline
    ensures var a := PhaseA(p, w, ingress, end, reserve);
            a.now == w.now + TimeA(p, w, ingress) && Done(p, w, a, Reverse(ingress, 0))
  {
    VisitsOfA(ingress);
    VisitsInTime(p, w, Reverse(ingress, 0), Early(end, reserve));
  }

  lemma {:induction false} SameTime(p: Plugins, w: Walk, v: Walk, l: seq<nat>)
    requires Returning(p) && Indices(l, |p.stops|)
    requires forall k :: 0 <= k < |l| ==> (Live(p, w, l[k]) <==> Live(p, v, l[k]))
    ensures VisitsTime(p, w, l) == VisitsTime(p, v, l)
  {
    if l != [] {
      SameTime(p, w, v, l[..|l| - 1]);
    }
  }

  lemma NotInOther(ingress: seq<bool>, k: nat)
    requires k < |Reverse(Not(ingress), 0)|
    ensures Reverse(Not(ingress), 0)[k] !in Reverse(ingress, 0)
  {
    ReverseIndices(ingress, 0);
    ReverseIndices(Not(ingress), 0);
    assert Reverse(Not(ingress), 0)[k] in Reverse(Not(ingress), 0);
  }

  /** Phase C finds its instances as the walk did. */
  lemma StillLive(p: Plugins, w: Walk, ingress: seq<bool>, end: int, reserve: nat, now: int, k: nat)
    requires Returning(p) && |p.stops| == |ingress| && k < |Reverse(Not(ingress), 0)|
    ensures var a := PhaseA(p, w, ingress, end, reserve).(now := now);
            Live(p, a, Reverse(Not(ingress), 0)[k]) <==> Live(p, w, Reverse(Not(ingress), 0)[k])
  {
    NotInOther(ingress, k);
    OthersUntouched(p, w, Reverse(ingress, 0), Early(end, reserve), Reverse(Not(ingress), 0)[k]);
  }

  lemma PhaseBInTime(p: Plugins, drain: seq<Span>, w: Walk, ingress: seq<bool>, drains: seq<bool>, end: int,
                     budget: nat, reserve: nat)
    requires Input(p, drain, ingress, drains) && Returning(p) && forall k :: 0 <= k < |drain| ==> drain[k].After?
    requires Fits(p, drain, w, ingress, drains, end, budget, reserve)
    ensures PhaseB(p, drain, w, ingress, drains, end, budget, reserve)
            == w.now + TimeA(p, w, ingress) + TimeB(drain, ingress, drains, budget)
    ensures var r := DrainReport(p, drain, w, ingress, drains, end, budget, reserve);
            forall k :: 0 <= k < |r| ==> r[k].outcome == Finished
  {
    PhaseAInTime(p, w, ingress, end, reserve);
    var a := PhaseA(p, w, ingress, end, reserve);
    if budget > 0 {
      DrainsInTime(drain, a.now, Reverse(Both(Not(ingress), drains), 0),
                   DrainDeadline(a.now, budget, Early(end, reserve)));
    }
  }

  lemma PhaseCInTime(p: Plugins, w: Walk, a: Walk, ingress: seq<bool>, end: int)
    requires Returning(p) && |p.stops| == |ingress|
    requires forall k :: 0 <= k < |Reverse(Not(ingress), 0)| ==>
                           (Live(p, w, Reverse(Not(ingress), 0)[k]) <==> Live(p, a, Reverse(Not(ingress), 0)[k]))
    requires a.now + TimeC(p, w, ingress) < end
    ensures Done(p, a, Stops(p, a, Reverse(Not(ingress), 0), Bounds(end, end, end)), Reverse(Not(ingress), 0))
  {
    SameTime(p, w, a, Reverse(Not(ingress), 0));
    VisitsOfA(Not(ingress));
    VisitsInTime(p, a, Reverse(Not(ingress), 0), Bounds(end, end, end));
  }

  ghost predicate AllStarted(p: Plugins, ingress: seq<bool>, c: Walk)
    requires |p.stops| == |ingress|
  {
    forall i: nat :: i in c.started <==> i < |ingress| && p.stops[i]
  }

  /** n records, one for each visit: finished where there is a Stop, skipped elsewhere. */
  ghost predicate AllReported(p: Plugins, n: nat, records: seq<Record>) {
    && |records| == n
    && forall k :: 0 <= k < n ==>
                     records[k].index < |p.stops|
                     && records[k].outcome == (if p.stops[records[k].index] then Finished else Skipped)
  }

  /** Phases A and C made in time, the second finding its instances as the first did. */
  ghost predicate BothDone(p: Plugins, w: Walk, a: Walk, c: Walk, early: seq<nat>, late: seq<nat>)
    requires Sized(p, |p.stops|) && Indices(early, |p.stops|) && Indices(late, |p.stops|)
  {
    && Done(p, w, a, early) && Done(p, a, c, late) && a.records <= c.records
    && forall k :: 0 <= k < |late| ==> (Live(p, w, late[k]) <==> Live(p, a, late[k]))
  }

  lemma StartedAll(p: Plugins, w: Walk, a: Walk, c: Walk, ingress: seq<bool>)
    requires Sized(p, |ingress|) && w.stopped == {} && w.started == []
    requires BothDone(p, w, a, c, Reverse(ingress, 0), Reverse(Not(ingress), 0))
    ensures AllStarted(p, ingress, c)
  {
    var late := Reverse(Not(ingress), 0);
    ReverseIndices(ingress, 0);
    ReverseIndices(Not(ingress), 0);
    forall i: nat ensures i in c.started <==> i < |ingress| && p.stops[i] {
      if i in late {
        var k :| 0 <= k < |late| && late[k] == i;
        assert Live(p, w, late[k]) <==> Live(p, a, late[k]);
      }
    }
  }

  lemma ReportedAll(p: Plugins, w: Walk, a: Walk, c: Walk, early: seq<nat>, late: seq<nat>)
    requires Sized(p, |p.stops|) && Indices(early, |p.stops|) && Indices(late, |p.stops|)
    requires w.stopped == {} && w.records == [] && BothDone(p, w, a, c, early, late)
    ensures AllReported(p, |early| + |late|, c.records)
  {
    forall k | 0 <= k < |c.records|
      ensures c.records[k].index < |p.stops|
              && c.records[k].outcome == (if p.stops[c.records[k].index] then Finished else Skipped)
    {
      if k < |early| {
        assert c.records[k] == a.records[k] == Expected(p, w, early[k]);
      } else {
        assert c.records[k] == Expected(p, a, late[k - |early|]);
        assert Live(p, w, late[k - |early|]) <==> Live(p, a, late[k - |early|]);
      }
    }
  }

  /** Phase A with the clock that phase B leaves. */
  ghost function AfterB(p: Plugins, drain: seq<Span>, w: Walk, ingress: seq<bool>, drains: seq<bool>, end: int,
                        budget: nat, reserve: nat): Walk
    requires Input(p, drain, ingress, drains)
  {
    PhaseA(p, w, ingress, end, reserve).(now := PhaseB(p, drain, w, ingress, drains, end, budget, reserve))
  }

  lemma PhasesInTime(p: Plugins, drain: seq<Span>, w: Walk, ingress: seq<bool>, drains: seq<bool>, end: int,
                     budget: nat, reserve: nat)
    requires Input(p, drain, ingress, drains) && Returning(p) && forall k :: 0 <= k < |drain| ==> drain[k].After?
    requires Fits(p, drain, w, ingress, drains, end, budget, reserve)
    ensures BothDone(p, w, AfterB(p, drain, w, ingress, drains, end, budget, reserve),
                     PhaseC(p, drain, w, ingress, drains, end, budget, reserve),
                     Reverse(ingress, 0), Reverse(Not(ingress), 0))
  {
    PhaseAInTime(p, w, ingress, end, reserve);
    PhaseBInTime(p, drain, w, ingress, drains, end, budget, reserve);
    var b := PhaseB(p, drain, w, ingress, drains, end, budget, reserve);
    var a := AfterB(p, drain, w, ingress, drains, end, budget, reserve);
    var rest := Reverse(Not(ingress), 0);
    forall k | 0 <= k < |rest| ensures Live(p, w, rest[k]) <==> Live(p, a, rest[k]) {
      StillLive(p, w, ingress, end, reserve, b, k);
    }
    PhaseCInTime(p, w, a, ingress, end);
    RecordsFollow(p, a, rest, Bounds(end, end, end));
  }

  /** When everything returns and the phases fit, every instance that declares a Stop has it
      run to its end, none is abandoned or left out, and every drain that is due finishes. */
  lemma EverythingStops(p: Plugins, drain: seq<Span>, w: Walk, ingress: seq<bool>, drains: seq<bool>, end: int,
                        budget: nat, reserve: nat)
    requires Input(p, drain, ingress, drains) && Returning(p) && forall k :: 0 <= k < |drain| ==> drain[k].After?
    requires Fits(p, drain, w, ingress, drains, end, budget, reserve)
    requires w.stopped == {} && w.records == [] && w.started == []
    ensures var c := PhaseC(p, drain, w, ingress, drains, end, budget, reserve);
            AllStarted(p, ingress, c) && AllReported(p, |Visits(ingress)|, c.records)
    ensures var r := DrainReport(p, drain, w, ingress, drains, end, budget, reserve);
            forall k :: 0 <= k < |r| ==> r[k].outcome == Finished
  {
    PhaseBInTime(p, drain, w, ingress, drains, end, budget, reserve);
    PhasesInTime(p, drain, w, ingress, drains, end, budget, reserve);
    var a := AfterB(p, drain, w, ingress, drains, end, budget, reserve);
    var c := PhaseC(p, drain, w, ingress, drains, end, budget, reserve);
    StartedAll(p, w, a, c, ingress);
    ReportedAll(p, w, a, c, Reverse(ingress, 0), Reverse(Not(ingress), 0));
  }
}
