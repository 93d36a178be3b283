/** The stop reserve: how much of the walk phases A and B leave to phase C.  The promise is
    three quarters of the reserve whatever the ingress Stops do.  It is not kept by the code
    as it is, because an ingress plugin's managed tasks are joined under the walk's own
    deadline and not under the earlier one; the condition below is exact. */
module Reserve {
  import opened Unwind

  /** The same plugins with Stops that return at once. */
  function Instant(p: Plugins): Plugins {
    p.(hook := Zeros(|p.hook|))
  }

  function Zeros(n: nat): (z: seq<Span>) {
    seq(n, i requires 0 <= i < n => After(0))
  }

  ghost predicate AllDifferent(l: seq<nat>) { forall j, k :: 0 <= j < k < |l| ==> l[j] != l[k] }

  /** Some earlier visit has a Stop that may take its time. */
  ghost predicate CanDelay(p: Plugins, w: Walk, l: seq<nat>)
    requires Indices(l, |p.stops|)
  {
    exists k :: 0 <= k < |l| && Live(p, w, l[k])
  }

  /** Can the managed tasks of the last visit be joined later than settled?  Its own Stop may
      return as late as settled; without one, the visit starts before the deadline. */
  ghost predicate JoinsLate(q: Plugins, w: Walk, init: seq<nat>, i: nat, b: Bounds)
    requires Sized(q, |q.stops|) && Indices(init, |q.stops|) && i < |q.stops|
  {
    var t := Stops(q, w, init, b).now;
    && t < b.deadline
    && (if Live(q, w, i) then q.join[i] != After(0)
        else !InTime(if CanDelay(q, w, init) then b.deadline - 1 else t, q.join[i], b.settled))
  }

  /** Computed from which plugins have a Stop and how long their task scopes take to join. */
  ghost predicate Overruns(q: Plugins, w: Walk, l: seq<nat>, b: Bounds)
    requires Sized(q, |q.stops|) && Indices(l, |q.stops|)
  {
    l != [] && (Overruns(q, w, l[..|l| - 1], b) || JoinsLate(q, w, l[..|l| - 1], l[|l| - 1], b))
  }

  // ---------------------------------------------------------------------------
  // If nothing can be joined late, phase A is over by settled
  // ---------------------------------------------------------------------------

  lemma {:induction false} OthersUntouched(p: Plugins, w: Walk, l: seq<nat>, b: Bounds, i: nat)
    requires Sized(p, |p.stops|) && Indices(l, |p.stops|) && i < |p.stops| && i !in l
    ensures i in Stops(p, w, l, b).stopped <==> i in w.stopped
  {
    if l != [] {
      OthersUntouched(p, w, l[..|l| - 1], b, i);
    }
  }

  lemma Earlier(l: seq<nat>)
    requires AllDifferent(l) && l != []
    ensures AllDifferent(l[..|l| - 1]) && l[|l| - 1] !in l[..|l| - 1]
  {}

  /** A walk that still has time has taken at least what the joins alone take. */
  lemma {:induction false} InstantIsFirst(p: Plugins, w: Walk, l: seq<nat>, b: Bounds)
    requires Sized(p, |p.stops|) && Indices(l, |p.stops|) && AllDifferent(l) && Nested(b)
    ensures Stops(p, w, l, b).now < b.deadline ==> Stops(Instant(p), w, l, b).now <= Stops(p, w, l, b).now
    ensures !CanDelay(p, w, l) ==> Stops(Instant(p), w, l, b).now == Stops(p, w, l, b).now
  {
    if l != [] {
      var init, i := l[..|l| - 1], l[|l| - 1];
      Earlier(l);
      InstantIsFirst(p, w, init, b);
      OthersUntouched(p, w, init, b, i);
      OthersUntouched(Instant(p), w, init, b, i);
      StopBounded(p, Stops(p, w, init, b), i, b);
      assert CanDelay(p, w, init) ==> CanDelay(p, w, l) by {
        if CanDelay(p, w, init) {
          var k :| 0 <= k < |init| && Live(p, w, init[k]);
          assert Live(p, w, l[k]);
        }
      }
      assert Live(p, w, i) ==> CanDelay(p, w, l);
      FirstStep(p, Stops(Instant(p), w, init, b), Stops(p, w, init, b), i, b);
    }
  }

  lemma FirstStep(p: Plugins, w: Walk, v: Walk, i: nat, b: Bounds)
    requires Sized(p, |p.stops|) && i < |p.stops| && Nested(b)
    requires i in w.stopped <==> i in v.stopped
    ensures w.now <= v.now && StopOne(p, v, i, b).now < b.deadline
            ==> StopOne(Instant(p), w, i, b).now <= StopOne(p, v, i, b).now
    ensures w.now == v.now && !Live(p, v, i) ==> StopOne(Instant(p), w, i, b).now == StopOne(p, v, i, b).now
  {}

  lemma {:induction false} NoOverrun(p: Plugins, w: Walk, l: seq<nat>, b: Bounds)
    requires Sized(p, |p.stops|) && Indices(l, |p.stops|) && AllDifferent(l) && Nested(b) && w.now <= b.settled
    requires !Overruns(Instant(p), w, l, b)
    ensures Stops(p, w, l, b).now <= b.settled
  {
    if l != [] {
      var init, i := l[..|l| - 1], l[|l| - 1];
      Earlier(l);
      NoOverrun(p, w, init, b);
      InstantIsFirst(p, w, init, b);
      OthersUntouched(p, w, init, b, i);
      assert CanDelay(Instant(p), w, init) <==> CanDelay(p, w, init) by {
        assert forall k :: 0 <= k < |init| ==> (Live(Instant(p), w, init[k]) <==> Live(p, w, init[k]));
      }
      assert !JoinsLate(Instant(p), w, init, i, b);
    }
  }

  // ---------------------------------------------------------------------------
  // If something can, there are Stops that make it happen
  // ---------------------------------------------------------------------------

  /** Only the Stop of m takes time. */
  function Delaying(p: Plugins, m: nat, delay: nat): Plugins
    requires m < |p.hook|
  {
    p.(hook := Zeros(|p.hook|)[m := After(delay)])
  }

  lemma {:induction false} SameWithout(p: Plugins, w: Walk, l: seq<nat>, b: Bounds, m: nat, delay: nat)
    requires Sized(p, |p.stops|) && Indices(l, |p.stops|) && m < |p.stops| && m !in l
    ensures Stops(Delaying(p, m, delay), w, l, b) == Stops(Instant(p), w, l, b)
  {
    if l != [] {
      SameWithout(p, w, l[..|l| - 1], b, m, delay);
    }
  }

  /** One delay shifts everything after it, as long as there is time. */
  lemma {:induction false} Shifted(p: Plugins, w: Walk, l: seq<nat>, b: Bounds, m: nat, delay: nat)
    requires Sized(p, |p.stops|) && Indices(l, |p.stops|) && AllDifferent(l) && Nested(b) && b.deadline < b.end
    requires m in l && m < |p.stops| && Live(p, w, m)
    requires Stops(Instant(p), w, l, b).now + delay < b.deadline
    ensures Stops(Delaying(p, m, delay), w, l, b).now == Stops(Instant(p), w, l, b).now + delay
  {
    var init, i := l[..|l| - 1], l[|l| - 1];
    Earlier(l);
    var q := Delaying(p, m, delay);
    OthersUntouched(q, w, init, b, i);
    OthersUntouched(Instant(p), w, init, b, i);
    StopBounded(Instant(p), Stops(Instant(p), w, init, b), i, b);
    if i == m {
      SameWithout(p, w, init, b, m, delay);
    } else {
      Shifted(p, w, init, b, m, delay);
    }
    ShiftStep(p, Stops(Instant(p), w, init, b), Stops(q, w, init, b), i, b, m, delay);
  }

  lemma ShiftStep(p: Plugins, w: Walk, v: Walk, i: nat, b: Bounds, m: nat, delay: nat)
    requires Sized(p, |p.stops|) && i < |p.stops| && m < |p.stops| && Nested(b) && b.deadline < b.end
    requires i in w.stopped <==> i in v.stopped
    requires StopOne(Instant(p), w, i, b).now + delay < b.deadline && w.now < b.deadline
    requires if i == m then v.now == w.now && Live(p, v, m) else v.now == w.now + delay
    ensures StopOne(Delaying(p, m, delay), v, i, b).now == StopOne(Instant(p), w, i, b).now + delay
  {}

  /** Stop durations under which phase A ends after settled. */
  lemma {:induction false} Overrun(p: Plugins, w: Walk, l: seq<nat>, b: Bounds) returns (d: seq<Span>)
    requires Sized(p, |p.stops|) && Indices(l, |p.stops|) && AllDifferent(l) && Nested(b) && b.settled < b.end
    requires Overruns(Instant(p), w, l, b)
    ensures |d| == |p.stops| && Stops(p.(hook := d), w, l, b).now > b.settled
  {
    var init, i := l[..|l| - 1], l[|l| - 1];
    Earlier(l);
    if Overruns(Instant(p), w, init, b) {
      d := Overrun(p, w, init, b);
      StopBounded(p.(hook := d), Stops(p.(hook := d), w, init, b), i, b);
    } else {
      var q := LateJoin(p, w, init, i, b);
      d := q.hook;
    }
  }

  lemma LateJoin(p: Plugins, w: Walk, init: seq<nat>, i: nat, b: Bounds) returns (q: Plugins)
    requires Sized(p, |p.stops|) && Indices(init, |p.stops|) && AllDifferent(init) && Nested(b) && b.settled < b.end
    requires i < |p.stops| && i !in init && JoinsLate(Instant(p), w, init, i, b)
    ensures Sized(q, |p.stops|) && q == p.(hook := q.hook)
    ensures StopOne(q, Stops(q, w, init, b), i, b).now > b.settled
  {
    if Live(p, w, i) {
      q := LateOwnStop(p, w, init, i, b);
    } else if CanDelay(Instant(p), w, init) {
      q := LateOtherStop(p, w, init, i, b);
    } else {
      OthersUntouched(Instant(p), w, init, b, i);
      q := Instant(p);
      LateByJoin(q, Stops(q, w, init, b), i, b);
    }
  }

  /** Its own Stop returns at settled. */
  lemma LateOwnStop(p: Plugins, w: Walk, init: seq<nat>, i: nat, b: Bounds) returns (q: Plugins)
    requires Sized(p, |p.stops|) && Indices(init, |p.stops|) && Nested(b) && b.settled < b.end
    requires i < |p.stops| && i !in init && Live(p, w, i) && JoinsLate(Instant(p), w, init, i, b)
    ensures Sized(q, |p.stops|) && q == p.(hook := q.hook)
    ensures StopOne(q, Stops(q, w, init, b), i, b).now > b.settled
  {
    var t := Stops(Instant(p), w, init, b).now;
    q := Delaying(p, i, b.settled - t);
    SameWithout(p, w, init, b, i, b.settled - t);
    OthersUntouched(Instant(p), w, init, b, i);
    LateByStop(q, Stops(q, w, init, b), i, b);
  }

  /** An earlier Stop delays the visit to the last moment it may start. */
  lemma LateOtherStop(p: Plugins, w: Walk, init: seq<nat>, i: nat, b: Bounds) returns (q: Plugins)
    requires Sized(p, |p.stops|) && Indices(init, |p.stops|) && AllDifferent(init) && Nested(b) && b.settled < b.end
    requires i < |p.stops| && i !in init && !Live(p, w, i)
    requires CanDelay(Instant(p), w, init) && JoinsLate(Instant(p), w, init, i, b)
    ensures Sized(q, |p.stops|) && q == p.(hook := q.hook)
    ensures StopOne(q, Stops(q, w, init, b), i, b).now > b.settled
  {
    var t := Stops(Instant(p), w, init, b).now;
    var k :| 0 <= k < |init| && Live(Instant(p), w, init[k]);
    q := Delaying(p, init[k], b.deadline - 1 - t);
    Shifted(p, w, init, b, init[k], b.deadline - 1 - t);
    OthersUntouched(q, w, init, b, i);
    LateByJoin(q, Stops(q, w, init, b), i, b);
  }

  lemma LateByStop(q: Plugins, w: Walk, i: nat, b: Bounds)
    requires Sized(q, |q.stops|) && i < |q.stops| && Nested(b) && b.settled < b.end && w.now < b.deadline
    requires Live(q, w, i) && q.hook[i] == After(b.settled - w.now) && q.join[i] != After(0)
    ensures StopOne(q, w, i, b).now > b.settled
  {}

  lemma LateByJoin(q: Plugins, w: Walk, i: nat, b: Bounds)
    requires Sized(q, |q.stops|) && i < |q.stops| && Nested(b) && b.settled < b.end && w.now < b.deadline
    requires !Live(q, w, i) && !InTime(w.now, q.join[i], b.settled)
    ensures StopOne(q, w, i, b).now > b.settled
  {}

  // ---------------------------------------------------------------------------
  // The reserve
  // ---------------------------------------------------------------------------

  /** What phase C has when it begins. */
  ghost function LeftForC(p: Plugins, drain: seq<Span>, w: Walk, ingress: seq<bool>, drains: seq<bool>,
                          end: int, budget: nat, reserve: nat): int
    requires Input(p, drain, ingress, drains)
  {
    end - PhaseB(p, drain, w, ingress, drains, end, budget, reserve)
  }

  lemma VisitsOfA(ingress: seq<bool>)
    ensures Indices(Reverse(ingress, 0), |ingress|) && AllDifferent(Reverse(ingress, 0))
  {
    ReverseIndices(ingress, 0);
  }

  /** Phase C keeps three quarters of the reserve for every duration of every ingress Stop
      exactly when no ingress task scope can be joined late. */
  lemma ReserveKeptExactly(p: Plugins, drain: seq<Span>, w: Walk, ingress: seq<bool>, drains: seq<bool>,
                           end: int, budget: nat, reserve: nat)
    requires Input(p, drain, ingress, drains) && reserve > 0 && w.now <= end - reserve + reserve / 4
    ensures (forall d: seq<Span> :: |d| == |ingress|
               ==> LeftForC(p.(hook := d), drain, w, ingress, drains, end, budget, reserve) >= reserve - reserve / 4)
            <==> !Overruns(Instant(p), w, Reverse(ingress, 0), Early(end, reserve))
  {
    VisitsOfA(ingress);
    var list, b := Reverse(ingress, 0), Early(end, reserve);
    if Overruns(Instant(p), w, list, b) {
      var d := Overrun(p, w, list, b);
      PhaseBBounded(p.(hook := d), drain, w, ingress, drains, end, budget, reserve);
      assert LeftForC(p.(hook := d), drain, w, ingress, drains, end, budget, reserve) < reserve - reserve / 4;
    } else {
      forall d: seq<Span> | |d| == |ingress|
        ensures LeftForC(p.(hook := d), drain, w, ingress, drains, end, budget, reserve) >= reserve - reserve / 4
      {
        assert Instant(p.(hook := d)) == Instant(p);
        NoOverrun(p.(hook := d), w, list, b);
        PhaseBBounded(p.(hook := d), drain, w, ingress, drains, end, budget, reserve);
      }
    }
  }

  /** In particular the promise holds when every ingress task scope joins at once. */
  lemma {:induction false} InstantJoinsNeverOverrun(q: Plugins, w: Walk, l: seq<nat>, b: Bounds)
    requires Sized(q, |q.stops|) && Indices(l, |q.stops|) && Nested(b)
    requires forall k :: 0 <= k < |l| ==> q.join[l[k]] == After(0)
    ensures !Overruns(q, w, l, b)
  {
    if l != [] {
      InstantJoinsNeverOverrun(q, w, l[..|l| - 1], b);
    }
  }

  /** A Stop that returns at the early deadline and a task scope that never joins. */
  function Stuck(): Plugins { Plugins([true], [After(12)], [Never]) }

  lemma StuckVisit(w: Walk)
    requires w == Walk(0, {}, [], [])
    ensures Stops(Stuck(), w, [0], Early(20, 8)).now == 20
  {
    assert Stops(Stuck(), w, [0][..0], Early(20, 8)) == w;
  }

  /** One such ingress plugin leaves phase C nothing of a reserve of eight. */
  lemma ReserveSpentByJoin(w: Walk)
    requires w == Walk(0, {}, [], [])
    ensures LeftForC(Stuck(), [Never], w, [true], [false], 20, 0, 8) == 0
  {
    assert Reverse([true], 1) == [];
    assert Reverse([true], 0) == [0];
    StuckVisit(w);
  }
}
