/** The shutdown budgets: how unset ones are derived and what loadSettings lets through, with
    the 64-bit arithmetic of time.Duration written out. */
module Settings {
  import opened Int64
  import Unwind

  newtype Duration = d: int | -0x8000_0000_0000_0000 <= d < 0x8000_0000_0000_0000

  /** Division towards zero. */
  function Quotient(x: int, y: int): int
    requires y > 0
  {
    if x >= 0 then x / y else -(-x / y)
  }

  /** A value the operator set, or None. */
  datatype Given = Unset | Set(value: Duration)

  datatype Request = Request(shutdown: Duration, preStop: Duration, drain: Given, reserve: Given)

  datatype Budgets = Budgets(shutdown: Duration, preStop: Duration, drain: Duration, reserve: Duration)

  datatype Loaded = Rejected | Accepted(budgets: Budgets)

  function DerivedDrain(shutdown: Duration): Duration {
    Quotient(Wrap(shutdown as int * 3), 5) as Duration
  }

  function DerivedReserve(shutdown: Duration, drain: Duration): Duration {
    var share := Quotient(shutdown as int, 5);
    var half := Quotient(Wrap(shutdown as int - drain as int), 2);
    (if share <= half then share else half) as Duration
  }

  function Drain(q: Request): Duration {
    if q.drain.Unset? then DerivedDrain(q.shutdown) else q.drain.value
  }

  function Load(q: Request): Loaded {
    if q.shutdown <= 0 || q.preStop < 0 then Rejected
    else if q.drain.Set? && (q.drain.value < 0 || (q.drain.value > 0 && q.drain.value >= q.shutdown)) then Rejected
    else
      var drain := Drain(q);
      if q.reserve.Unset? then Accepted(Budgets(q.shutdown, q.preStop, drain, DerivedReserve(q.shutdown, drain)))
      else if q.reserve.value < 0 then Rejected
      else if q.reserve.value > 0 && Wrap(drain as int + q.reserve.value as int) >= q.shutdown as int then Rejected
      else Accepted(Budgets(q.shutdown, q.preStop, drain, q.reserve.value))
  }

  function IngressStopBudget(b: Budgets): Duration {
    if b.shutdown <= 0 then 0 else Wrap(b.shutdown as int - b.reserve as int) as Duration
  }

  /** The drain phase and the reserve are both carved out of the shutdown budget and leave
      the ingress stop some of it. */
  predicate Contained(b: Budgets) {
    0 <= b.drain && 0 <= b.reserve && b.drain as int + b.reserve as int < b.shutdown as int
  }

  /** The products and sums loadSettings forms stay in range, or wrap all the way round. */
  predicate InRange(q: Request) {
    && (q.drain.Unset? ==> q.shutdown as int * 3 <= MAX || q.shutdown as int * 3 > SPAN - 5)
    && (q.reserve.Set? ==> Drain(q) as int + q.reserve.value as int <= MAX)
  }

  /** The derived drain budget is a part of the shutdown budget exactly when 3 * shutdown
      does not overflow into the negatives. */
  lemma DerivedDrainFits(shutdown: Duration)
    requires shutdown > 0
    ensures 0 <= DerivedDrain(shutdown) < shutdown
            <==> shutdown as int * 3 <= MAX || shutdown as int * 3 > SPAN - 5
  {
  }

  lemma DerivedReserveFits(shutdown: Duration, drain: Duration)
    requires 0 <= drain < shutdown
    ensures 0 <= DerivedReserve(shutdown, drain)
            && drain as int + DerivedReserve(shutdown, drain) as int < shutdown as int
  {
  }

  /** Among the accepted settings, the contained ones are exactly those computed in range. */
  lemma AcceptedContained(q: Request)
    requires Load(q).Accepted?
    ensures Contained(Load(q).budgets) <==> InRange(q)
  {
    var drain := Drain(q);
    if q.drain.Unset? {
      DerivedDrainFits(q.shutdown);
    }
    if 0 <= drain < q.shutdown {
      if q.reserve.Unset? {
        DerivedReserveFits(q.shutdown, drain);
      }
    }
  }

  /** What is accepted: a positive shutdown budget, no negative one, and drain and reserve
      that leave some of it -- zero switches either off -- when nothing wraps. */
  lemma AcceptedExactly(q: Request)
    requires InRange(q)
    ensures Load(q).Accepted? <==>
              && q.shutdown > 0 && q.preStop >= 0
              && (q.drain.Set? ==> 0 <= q.drain.value && (q.drain.value == 0 || q.drain.value < q.shutdown))
              && (q.reserve.Set? && q.reserve.value != 0 ==>
                    q.reserve.value > 0 && Drain(q) as int + q.reserve.value as int < q.shutdown as int)
    ensures Load(q).Accepted? ==>
              var b := Load(q).budgets;
              && b.shutdown == q.shutdown && b.preStop == q.preStop
              && (q.drain.Set? ==> b.drain == q.drain.value) && (q.reserve.Set? ==> b.reserve == q.reserve.value)
  {}

  /** The defaults: three fifths for the drain phase, and for the reserve the smaller of one
      fifth and half of what the drain phase leaves. */
  lemma DefaultsAre(q: Request)
    requires 0 < q.shutdown && q.shutdown as int <= MAX / 3 && q.preStop >= 0 && q.drain.Unset? && q.reserve.Unset?
    ensures Load(q).Accepted?
    ensures var b, s := Load(q).budgets, q.shutdown as int;
            && b.drain as int == 3 * s / 5
            && b.reserve as int == if s / 5 <= (s - 3 * s / 5) / 2 then s / 5 else (s - 3 * s / 5) / 2
  {}

  /** In particular whenever shutdown and reserve stay below a third of the range. */
  lemma SmallIsContained(q: Request)
    requires Load(q).Accepted? && q.shutdown as int <= MAX / 3 && (q.reserve.Set? ==> q.reserve.value as int <= MAX / 3)
    ensures Contained(Load(q).budgets) && IngressStopBudget(Load(q).budgets) > 0
  {
    if q.drain.Unset? {
      DerivedDrainFits(q.shutdown);
    }
    AcceptedContained(q);
  }

  /** A shutdown budget of 2^62 ns is accepted and derives a negative drain budget. */
  lemma DerivedDrainWraps(preStop: Duration)
    requires preStop >= 0
    ensures var q := Request(0x4000_0000_0000_0000, preStop, Unset, Unset);
            Load(q).Accepted? && Load(q).budgets.drain < 0
  {
  }

  /** Explicit budgets whose sum wraps are accepted although they exceed the shutdown budget. */
  lemma SumWraps(preStop: Duration)
    requires preStop >= 0
    ensures var q := Request(0x4000_0000_0000_0001, preStop, Set(0x4000_0000_0000_0000), Set(0x4000_0000_0000_0000));
            Load(q).Accepted? && !Contained(Load(q).budgets)
  {
  }

  /** What containment buys the walk: a walk that starts now has ingress time left, enough
      of it for the whole drain budget, and meets the premise of the reserve. */
  lemma ContainedFeedsWalk(b: Budgets, now: int)
    requires Contained(b)
    ensures var end := now + b.shutdown as int;
            var early := Unwind.Early(end, b.reserve as int);
            && now < early.deadline && now <= early.settled <= end
            && Unwind.DrainDeadline(now, b.drain as int, early) == now + b.drain as int
            && early.deadline - now == IngressStopBudget(b) as int
  {
  }
}
