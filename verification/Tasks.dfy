/** Managed-task admission: Start windows, task groups, and their reclamation at shutdown.
    Each lock-held region is one atomic event; the workload budget is part of the state,
    so every interleaving here is also one of the budget's. */
module Tasks {
  import opened Common
  import opened Budget

  type Id = string

  /** `created` groups exist, identified by 0..created; `detached` ones have left the table
      and await their cancel; `cancels` counts the cancels of each. */
  datatype State = State(admitting: set<Id>, groups: map<Id, nat>, critical: nat, closed: bool, shuttingDown: bool,
                         created: nat, detached: set<nat>, cancels: multiset<nat>, budget: System)

  datatype Step =
    | OpenStart(id: Id)
    | CloseStart(id: Id)
    | Submit(id: Id, isNil: bool, critical: bool)
    | RaiseShutdown                   // closeAdmission's atomic flag
    | CloseAdmission                  // closeAdmission's lock-held region
    | Detach(id: Id)                  // stopPlugin's lock-held region
    | DetachAll                       // drainRemaining's lock-held region
    | CancelGroup(group: nat)         // the cancel that follows either
    | Work(event: Event)              // a task returning its slot, or an admission

  /** Which workload owns a plugin; a plugin absent from it owns none. */
  type Attribution = map<Id, Workload>

  function WorkloadOf(owner: Attribution, id: Id): Workload { if id in owner then owner[id] else "" }

  predicate BudgetRefuses(s: State, w: Workload) { Charge(s.budget.core, w).1.Refused? }

  /** Whether a submission is accepted. */
  predicate Admits(owner: Attribution, s: State, e: Step)
    requires e.Submit?
  {
    !e.isNil && !s.closed && e.id in s.admitting && !BudgetRefuses(s, WorkloadOf(owner, e.id))
  }

  function Admit(s: State, id: Id, critical: bool): State {
    var t := if id in s.groups then s else s.(groups := s.groups[id := s.created], created := s.created + 1);
    if critical then t.(critical := t.critical + 1) else t
  }

  function Perform(owner: Attribution, s: State, e: Step): State {
    match e
    case OpenStart(id) => if s.closed || s.shuttingDown then s else s.(admitting := s.admitting + {id})
    case CloseStart(id) => s.(admitting := s.admitting - {id})
    case Submit(id, isNil, critical) =>
      if isNil || s.closed || id !in s.admitting then s
      else
        var t := s.(budget := Budget.Next(s.budget, Charged(WorkloadOf(owner, id))));
        if BudgetRefuses(s, WorkloadOf(owner, id)) then t else Admit(t, id, critical)
    case RaiseShutdown => s.(shuttingDown := true)
    case CloseAdmission => s.(closed := true, admitting := {})
    case Detach(id) =>
      if id in s.groups then s.(groups := s.groups - {id}, detached := s.detached + {s.groups[id]}) else s
    case DetachAll => s.(groups := map[], detached := s.detached + s.groups.Values)
    case CancelGroup(g) =>
      if g in s.detached then s.(detached := s.detached - {g}, cancels := s.cancels + multiset{g}) else s
    case Work(event) => s.(budget := Budget.Next(s.budget, event))
  }

  function Boot(limits: map<Workload, int>): State {
    State({}, map[], 0, false, false, 0, {}, multiset{}, Budget.Start(limits))
  }

  function Replay(owner: Attribution, s: State, es: seq<Step>): State {
    if es == [] then s else Perform(owner, Replay(owner, s, es[..|es| - 1]), es[|es| - 1])
  }

  lemma {:induction false} RunSplit(owner: Attribution, s: State, a: seq<Step>, b: seq<Step>)
    ensures Replay(owner, s, a + b) == Replay(owner, Replay(owner, s, a), b)
  {
    if b == [] {
      assert a + b == a;
    } else {
      RunSplit(owner, s, a, b[..|b| - 1]);
      assert (a + b)[..|a + b| - 1] == a + b[..|b| - 1];
    }
  }

  // ---------------------------------------------------------------------------
  // The budget under the runtime
  // ---------------------------------------------------------------------------

  /** The runtime touches the budget only through the budget's own regions. */
  lemma BudgetMoves(owner: Attribution, s: State, e: Step)
    ensures var t := Perform(owner, s, e);
            || t.budget == s.budget
            || (e.Work? && t.budget == Budget.Next(s.budget, e.event))
            || (e.Submit? && t.budget == Budget.Next(s.budget, Charged(WorkloadOf(owner, e.id))))
  {
  }

  /** Conservation and wake-ups survive everything the runtime does around the budget. */
  lemma {:induction false} BudgetKept(owner: Attribution, limits: map<Workload, int>, es: seq<Step>)
    ensures Budget.Inv(Replay(owner, Boot(limits), es).budget)
    ensures Replay(owner, Boot(limits), es).budget.core.limits == limits
  {
    if es == [] {
      StartHolds(limits);
    } else {
      BudgetKept(owner, limits, es[..|es| - 1]);
      var s, e := Replay(owner, Boot(limits), es[..|es| - 1]), es[|es| - 1];
      BudgetMoves(owner, s, e);
      if e.Work? {
        NextKeeps(s.budget, e.event);
        LimitsFixed(s.budget, e.event);
      }
      if e.Submit? {
        NextKeeps(s.budget, Charged(WorkloadOf(owner, e.id)));
        LimitsFixed(s.budget, Charged(WorkloadOf(owner, e.id)));
      }
    }
  }

  // ---------------------------------------------------------------------------
  // Refusals
  // ---------------------------------------------------------------------------

  /** A refused submission changes nothing but, when the budget refused it, that workload's
      rejection count. */
  lemma RefusalChangesNothingElse(owner: Attribution, s: State, e: Step)
    requires e.Submit? && !Admits(owner, s, e)
    ensures var w, t := WorkloadOf(owner, e.id), Perform(owner, s, e);
            if e.isNil || s.closed || e.id !in s.admitting then t == s
            else t == s.(budget := s.budget.(core := s.budget.core.(rejected :=
                     s.budget.core.rejected[w := Count(s.budget.core.rejected, w) + 1])))
  {
  }

  // ---------------------------------------------------------------------------
  // Start windows
  // ---------------------------------------------------------------------------

  /** In the history es, id's window was opened at j before any shutdown and not closed since. */
  ghost predicate OpenedAt(es: seq<Step>, id: Id, j: nat) {
    && j < |es| && es[j] == OpenStart(id)
    && (forall k :: 0 <= k < j ==> es[k] != RaiseShutdown && es[k] != CloseAdmission)
    && (forall k :: j < k < |es| ==> es[k] != CloseStart(id) && es[k] != CloseAdmission)
  }

  ghost predicate WindowOpen(es: seq<Step>, id: Id) { exists j :: OpenedAt(es, id, j) }

  ghost predicate Mentions(es: seq<Step>, e: Step) { exists k :: 0 <= k < |es| && es[k] == e }

  lemma OpenedEarlier(es: seq<Step>, e: Step, id: Id)
    ensures WindowOpen(es + [e], id) <==>
              || (e == OpenStart(id) && !Mentions(es, RaiseShutdown) && !Mentions(es, CloseAdmission))
              || (WindowOpen(es, id) && e != CloseStart(id) && e != CloseAdmission)
  {
    var all := es + [e];
    if j: nat :| OpenedAt(all, id, j) {
      if j < |es| {
        assert forall k :: 0 <= k < |es| ==> all[k] == es[k];
        assert all[|es|] == e;
        assert OpenedAt(es, id, j);
      } else {
        assert forall k :: 0 <= k < |es| ==> all[k] == es[k];
      }
    }
    if j: nat :| OpenedAt(es, id, j) {
      if e != CloseStart(id) && e != CloseAdmission { assert OpenedAt(all, id, j); }
    }
    if e == OpenStart(id) && !Mentions(es, RaiseShutdown) && !Mentions(es, CloseAdmission) {
      assert OpenedAt(all, id, |es|);
    }
  }

  /** The flags and the table of windows say exactly what the history says. */
  lemma {:induction false} WindowsFollowHistory(owner: Attribution, limits: map<Workload, int>, es: seq<Step>, id: Id)
    ensures var s := Replay(owner, Boot(limits), es);
            && (s.closed <==> Mentions(es, CloseAdmission))
            && (s.shuttingDown <==> Mentions(es, RaiseShutdown))
            && (id in s.admitting <==> WindowOpen(es, id))
  {
    if es != [] {
      var before, e := es[..|es| - 1], es[|es| - 1];
      assert es == before + [e];
      WindowsFollowHistory(owner, limits, before, id);
      OpenedEarlier(before, e, id);
      forall x ensures Mentions(es, x) <==> Mentions(before, x) || e == x { MentionsLast(before, e, x); }
      FlagStep(owner, Replay(owner, Boot(limits), before), e, id);
      if Replay(owner, Boot(limits), before).closed { ClosedWindow(before, id); }
    }
  }

  lemma MentionsLast(es: seq<Step>, e: Step, x: Step)
    ensures Mentions(es + [e], x) <==> Mentions(es, x) || e == x
  {
    var all := es + [e];
    if Mentions(es, x) {
      var k :| 0 <= k < |es| && es[k] == x;
      assert all[k] == x;
    }
    if e == x { assert all[|es|] == x; }
  }

  lemma ClosedWindow(es: seq<Step>, id: Id)
    requires Mentions(es, CloseAdmission)
    ensures !WindowOpen(es, id)
  {
  }

  lemma FlagStep(owner: Attribution, s: State, e: Step, id: Id)
    ensures var t := Perform(owner, s, e);
            && (t.closed <==> s.closed || e == CloseAdmission)
            && (t.shuttingDown <==> s.shuttingDown || e == RaiseShutdown)
            && (id in t.admitting <==>
                  || (e == OpenStart(id) && !s.closed && !s.shuttingDown)
                  || (id in s.admitting && e != CloseStart(id) && e != CloseAdmission))
  {
  }

  /** Over whole runs: a submission is admitted exactly when it carries a task, comes inside
      its own plugin's open Start window -- so never after admission closed -- and not all
      slots of its workload are out. */
  lemma AdmittedExactlyInWindow(owner: Attribution, limits: map<Workload, int>, es: seq<Step>, e: Step)
    requires e.Submit?
    ensures var s := Replay(owner, Boot(limits), es);
            Admits(owner, s, e) <==>
              && !e.isNil && WindowOpen(es, e.id)
              && (e.id in owner ==> !NoRoom(limits, s.budget.held, owner[e.id]))
  {
    RefusedExactly(owner, limits, es, WorkloadOf(owner, e.id));
    WindowsFollowHistory(owner, limits, es, e.id);
    if Mentions(es, CloseAdmission) { ClosedWindow(es, e.id); }
  }

  lemma RefusedExactly(owner: Attribution, limits: map<Workload, int>, es: seq<Step>, w: Workload)
    ensures var s := Replay(owner, Boot(limits), es);
            BudgetRefuses(s, w) <==> NoRoom(limits, s.budget.held, w)
  {
    BudgetKept(owner, limits, es);
    var s := Replay(owner, Boot(limits), es);
    assert Count(s.budget.core.running, w) == |SlotsOf(s.budget.held, w)|;
  }

  /** An admitted task belongs to its plugin's group, which exists from then on; a critical
      one is counted; and a limited workload has one more slot out. */
  lemma AdmittedJoinsGroup(owner: Attribution, limits: map<Workload, int>, es: seq<Step>, e: Step)
    requires e.Submit? && Admits(owner, Replay(owner, Boot(limits), es), e)
    ensures var s := Replay(owner, Boot(limits), es);
            var t, w := Perform(owner, s, e), if e.id in owner then owner[e.id] else "";
            && e.id in t.groups && (e.id in s.groups ==> t.groups == s.groups)
            && (e.id !in s.groups ==> t.groups == s.groups[e.id := s.created] && t.created == s.created + 1)
            && t.critical == s.critical + (if e.critical then 1 else 0)
            && t.budget.held == if w != "" && w in limits then s.budget.held[s.budget.issued := w] else s.budget.held
  {
    BudgetKept(owner, limits, es);
  }

  // ---------------------------------------------------------------------------
  // Reclamation
  // ---------------------------------------------------------------------------

  /** What reclamation is about. */
  datatype Table = Table(groups: map<Id, nat>, created: nat, detached: set<nat>, cancels: multiset<nat>)

  function TableOf(s: State): Table { Table(s.groups, s.created, s.detached, s.cancels) }

  /** Each group ever created is in exactly one place: in the table, awaiting its cancel, or
      cancelled once. */
  ghost predicate Accounted(s: State, g: nat) {
    (if g in s.groups.Values then 1 else 0) + (if g in s.detached then 1 else 0) + s.cancels[g]
      == if g < s.created then 1 else 0
  }

  ghost predicate OneOwnerEach(s: State) {
    forall a, b :: a in s.groups && b in s.groups && s.groups[a] == s.groups[b] ==> a == b
  }

  ghost predicate GroupInv(s: State) { OneOwnerEach(s) && forall g :: Accounted(s, g) }

  lemma DetachKeeps(s: State, id: Id)
    requires GroupInv(s) && id in s.groups
    ensures GroupInv(s.(groups := s.groups - {id}, detached := s.detached + {s.groups[id]}))
  {
    var t := s.(groups := s.groups - {id}, detached := s.detached + {s.groups[id]});
    forall g ensures Accounted(t, g) {
      assert Accounted(s, g);
      assert g in t.groups.Values <==> g in s.groups.Values && g != s.groups[id] by {
        if g in s.groups.Values && g != s.groups[id] {
          var a :| a in s.groups && s.groups[a] == g;
          assert a in t.groups && t.groups[a] == g;
        }
        if g in t.groups.Values {
          var a :| a in t.groups && t.groups[a] == g;
          assert a in s.groups && s.groups[a] == g;
        }
      }
    }
  }

  lemma AdmitKeeps(s: State, id: Id, critical: bool)
    requires GroupInv(s)
    ensures GroupInv(Admit(s, id, critical))
  {
    var t := Admit(s, id, critical);
    forall a | a in s.groups ensures s.groups[a] < s.created {
      assert s.groups[a] in s.groups.Values;
      assert Accounted(s, s.groups[a]);
    }
    if id !in s.groups { NewGroup(s.groups, id, s.created); }
    forall g ensures Accounted(t, g) { assert Accounted(s, g); }
  }

  lemma NewGroup(groups: map<Id, nat>, id: Id, g: nat)
    requires id !in groups
    ensures groups[id := g].Values == groups.Values + {g}
  {
    var t := groups[id := g];
    assert t[id] == g;
    forall x | x in groups.Values ensures x in t.Values {
      var a :| a in groups && groups[a] == x;
      assert a in t && t[a] == x;
    }
    forall x | x in t.Values ensures x in groups.Values + {g} {
      var a :| a in t && t[a] == x;
      assert a != id ==> a in groups && groups[a] == x;
    }
  }

  lemma SameTableKeeps(s: State, t: State)
    requires GroupInv(s) && TableOf(s) == TableOf(t)
    ensures GroupInv(t)
  {
    forall g ensures Accounted(t, g) { assert Accounted(s, g); }
  }

  lemma CancelKeeps(s: State, g: nat)
    requires GroupInv(s) && g in s.detached
    ensures GroupInv(s.(detached := s.detached - {g}, cancels := s.cancels + multiset{g}))
  {
    var t := s.(detached := s.detached - {g}, cancels := s.cancels + multiset{g});
    forall x ensures Accounted(t, x) { assert Accounted(s, x); }
  }

  lemma DetachAllKeeps(s: State)
    requires GroupInv(s)
    ensures GroupInv(s.(groups := map[], detached := s.detached + s.groups.Values))
  {
    var t := s.(groups := map[], detached := s.detached + s.groups.Values);
    forall x ensures Accounted(t, x) { assert Accounted(s, x); }
  }

  lemma GroupStep(owner: Attribution, s: State, e: Step)
    requires GroupInv(s)
    ensures GroupInv(Perform(owner, s, e))
  {
    match e
    case Detach(id) => if id in s.groups { DetachKeeps(s, id); }
    case DetachAll => DetachAllKeeps(s);
    case CancelGroup(g) => if g in s.detached { CancelKeeps(s, g); }
    case Submit(id, _, critical) =>
      var paid := s.(budget := Budget.Next(s.budget, Charged(WorkloadOf(owner, id))));
      SameTableKeeps(s, paid);
      AdmitKeeps(paid, id, critical);
    case _ => SameTableKeeps(s, Perform(owner, s, e));
  }

  lemma {:induction false} GroupRun(owner: Attribution, limits: map<Workload, int>, es: seq<Step>)
    ensures GroupInv(Replay(owner, Boot(limits), es))
  {
    if es != [] {
      GroupRun(owner, limits, es[..|es| - 1]);
      GroupStep(owner, Replay(owner, Boot(limits), es[..|es| - 1]), es[|es| - 1]);
    }
  }

  /** Once admission is closed no group is created, and an emptied table stays empty. */
  lemma {:induction false} NothingNew(owner: Attribution, s: State, es: seq<Step>)
    requires s.closed
    ensures var t := Replay(owner, s, es);
            t.closed && t.created == s.created && (s.groups == map[] ==> t.groups == map[])
  {
    if es != [] {
      NothingNew(owner, s, es[..|es| - 1]);
    }
  }

  /** Reclamation over whole runs.  After admission closed and the leftovers were drained,
      whatever else happens before, between and after: no group is in the table and none
      can appear again, and when no cancel is outstanding every group ever created has been
      cancelled exactly once. */
  lemma EveryGroupReclaimed(owner: Attribution, limits: map<Workload, int>, before: seq<Step>, between: seq<Step>,
                            after: seq<Step>)
    ensures var closing := before + [CloseAdmission];
            var s := Replay(owner, Boot(limits), closing + between + [DetachAll] + after);
            && s.groups == map[]
            && s.created == Replay(owner, Boot(limits), before).created
            && (forall g :: 0 <= g < s.created ==>
                  (g in s.detached && s.cancels[g] == 0) || (g !in s.detached && s.cancels[g] == 1))
            && (s.detached == {} ==> forall g :: 0 <= g < s.created ==> s.cancels[g] == 1)
  {
    var closing := before + [CloseAdmission];
    var drained := closing + between + [DetachAll];
    assert closing[..|before|] == before;
    assert drained[..|drained| - 1] == closing + between;
    RunSplit(owner, Boot(limits), closing, between);
    RunSplit(owner, Boot(limits), drained, after);
    NothingNew(owner, Replay(owner, Boot(limits), closing), between);
    NothingNew(owner, Replay(owner, Boot(limits), drained), after);
    GroupRun(owner, limits, drained + after);
    var s := Replay(owner, Boot(limits), drained + after);
    forall g | 0 <= g < s.created
      ensures (g in s.detached && s.cancels[g] == 0) || (g !in s.detached && s.cancels[g] == 1)
    {
      assert Accounted(s, g);
    }
  }

  // ---------------------------------------------------------------------------
  // The end of an unwind
  // ---------------------------------------------------------------------------

  predicate Reclaims(e: Step) { e.Detach? || e.DetachAll? || e.CancelGroup? }

  /** The reclaiming steps of a run, in order. */
  function Reclaiming(es: seq<Step>): seq<Step> {
    if es == [] then []
    else
      var e := es[|es| - 1];
      if Reclaims(e) then Reclaiming(es[..|es| - 1]) + [e] else Reclaiming(es[..|es| - 1])
  }

  function Reclaim(t: Table, e: Step): Table {
    match e
    case Detach(id) =>
      if id in t.groups then t.(groups := t.groups - {id}, detached := t.detached + {t.groups[id]}) else t
    case DetachAll => t.(groups := map[], detached := t.detached + t.groups.Values)
    case CancelGroup(g) =>
      if g in t.detached then t.(detached := t.detached - {g}, cancels := t.cancels + multiset{g}) else t
    case _ => t
  }

  function ReclaimAll(t: Table, es: seq<Step>): Table {
    if es == [] then t else Reclaim(ReclaimAll(t, es[..|es| - 1]), es[|es| - 1])
  }

  lemma {:induction false} ReclaimSplit(t: Table, a: seq<Step>, b: seq<Step>)
    ensures ReclaimAll(t, a + b) == ReclaimAll(ReclaimAll(t, a), b)
  {
    if b == [] {
      assert a + b == a;
    } else {
      ReclaimSplit(t, a, b[..|b| - 1]);
      assert (a + b)[..|a + b| - 1] == a + b[..|b| - 1];
    }
  }

  lemma TableStep(owner: Attribution, s: State, e: Step)
    requires s.closed
    ensures Perform(owner, s, e).closed && TableOf(Perform(owner, s, e)) == Reclaim(TableOf(s), e)
  {}

  /** Once admission is closed the table is what the reclaiming steps make of it, whatever
      other goroutines do in between. */
  lemma {:induction false} TableRun(owner: Attribution, s: State, es: seq<Step>)
    requires s.closed
    ensures Replay(owner, s, es).closed && TableOf(Replay(owner, s, es)) == ReclaimAll(TableOf(s), Reclaiming(es))
  {
    if es != [] {
      var init, e := es[..|es| - 1], es[|es| - 1];
      TableRun(owner, s, init);
      TableStep(owner, Replay(owner, s, init), e);
      if Reclaims(e) {
        assert Reclaiming(es)[..|Reclaiming(es)| - 1] == Reclaiming(init);
      }
    }
  }

  /** stopPlugin: the group leaves the table and is cancelled. */
  function StopSteps(t: Table, id: Id): seq<Step> {
    if id in t.groups then [Detach(id), CancelGroup(t.groups[id])] else [Detach(id)]
  }

  lemma StopOneTable(t: Table, id: Id)
    requires t.detached == {}
    ensures ReclaimAll(t, StopSteps(t, id)).detached == {}
  {
    var es := StopSteps(t, id);
    assert ReclaimAll(t, []) == t;
    assert es[..1] == [Detach(id)] && [Detach(id)][..0] == [];
    assert ReclaimAll(t, [Detach(id)]) == Reclaim(t, Detach(id));
  }

  /** The calls of stopPlugin for the instances the walk reaches, one after the other. */
  function AllStopSteps(t: Table, ids: seq<Id>): seq<Step> {
    if ids == [] then []
    else
      var es := AllStopSteps(t, ids[..|ids| - 1]);
      es + StopSteps(ReclaimAll(t, es), ids[|ids| - 1])
  }

  lemma {:induction false} StopsLeaveNothing(t: Table, ids: seq<Id>)
    requires t.detached == {}
    ensures ReclaimAll(t, AllStopSteps(t, ids)).detached == {}
  {
    if ids != [] {
      StopsLeaveNothing(t, ids[..|ids| - 1]);
      var es := AllStopSteps(t, ids[..|ids| - 1]);
      var mid := ReclaimAll(t, es);
      ReclaimSplit(t, es, StopSteps(mid, ids[|ids| - 1]));
      StopOneTable(mid, ids[|ids| - 1]);
    }
  }

  ghost function Members(order: seq<nat>): set<nat> { set g | g in order }

  /** The cancels drainRemaining makes, in its order. */
  function CancelSteps(order: seq<nat>): (es: seq<Step>)
    ensures |es| == |order|
  {
    seq(|order|, i requires 0 <= i < |order| => CancelGroup(order[i]))
  }

  lemma MembersSnoc(order: seq<nat>, g: nat)
    ensures Members(order + [g]) == Members(order) + {g}
  {}

  lemma CancelStepsSnoc(order: seq<nat>, g: nat)
    ensures CancelSteps(order + [g]) == CancelSteps(order) + [CancelGroup(g)]
  {}

  lemma ReclaimSnoc(t: Table, es: seq<Step>, e: Step)
    ensures ReclaimAll(t, es + [e]) == Reclaim(ReclaimAll(t, es), e)
  {
    assert (es + [e])[..|es|] == es;
  }

  lemma CancelTable(t: Table, g: nat)
    ensures Reclaim(t, CancelGroup(g)).detached == t.detached - {g} && Reclaim(t, CancelGroup(g)).groups == t.groups
  {}

  lemma {:induction false} CancelsTable(t: Table, order: seq<nat>)
    ensures ReclaimAll(t, CancelSteps(order)).detached == t.detached - Members(order)
    ensures ReclaimAll(t, CancelSteps(order)).groups == t.groups
  {
    if order != [] {
      var init, g := order[..|order| - 1], order[|order| - 1];
      assert order == init + [g];
      CancelsTable(t, init);
      MembersSnoc(init, g);
      CancelStepsSnoc(init, g);
      ReclaimSnoc(t, CancelSteps(init), CancelGroup(g));
      CancelTable(ReclaimAll(t, CancelSteps(init)), g);
    }
  }

  /** What drainRemaining does to the table, whatever order the leftovers come in. */
  lemma DrainTable(t: Table, order: seq<nat>)
    requires t.detached == {} && Members(order) == t.groups.Values
    ensures ReclaimAll(t, [DetachAll] + CancelSteps(order)).detached == {}
    ensures ReclaimAll(t, [DetachAll] + CancelSteps(order)).groups == map[]
  {
    ReclaimSplit(t, [DetachAll], CancelSteps(order));
    assert [DetachAll][..0] == [];
    assert ReclaimAll(t, [DetachAll]) == Reclaim(t, DetachAll);
    CancelsTable(Reclaim(t, DetachAll), order);
  }

  lemma LeavesAlone(owner: Attribution, s: State, e: Step)
    requires !Reclaims(e)
    ensures Perform(owner, s, e).detached == s.detached
  {}

  lemma {:induction false} NothingDetached(owner: Attribution, s: State, es: seq<Step>)
    requires s.detached == {} && Reclaiming(es) == []
    ensures Replay(owner, s, es).detached == {}
  {
    if es != [] {
      NothingDetached(owner, s, es[..|es| - 1]);
      LeavesAlone(owner, Replay(owner, s, es[..|es| - 1]), es[|es| - 1]);
    }
  }

  /** The steps of an unwind: stopPlugin for the instances reached, then drainRemaining,
      whose leftovers come in some order. */
  ghost predicate Unwinds(t: Table, ids: seq<Id>, order: seq<nat>, es: seq<Step>) {
    && es == AllStopSteps(t, ids) + ([DetachAll] + CancelSteps(order))
    && Members(order) == ReclaimAll(t, AllStopSteps(t, ids)).groups.Values
  }

  lemma UnwindEmpties(t: Table, ids: seq<Id>, order: seq<nat>, es: seq<Step>)
    requires t.detached == {} && Unwinds(t, ids, order, es)
    ensures ReclaimAll(t, es).detached == {} && ReclaimAll(t, es).groups == map[]
  {
    StopsLeaveNothing(t, ids);
    ReclaimSplit(t, AllStopSteps(t, ids), [DetachAll] + CancelSteps(order));
    DrainTable(ReclaimAll(t, AllStopSteps(t, ids)), order);
  }

  /** Whole runs to the end of unwind.  Up to the close nothing but unwind takes a group out
      of the table; from then on the reclaiming steps are those of an unwind that reached
      any instances, interleaved with anything else.  Then every group ever created has been
      cancelled exactly once. */
  lemma CancelledExactlyOnce(owner: Attribution, limits: map<Workload, int>, before: seq<Step>, after: seq<Step>,
                             ids: seq<Id>, order: seq<nat>)
    requires Reclaiming(before) == []
    requires Unwinds(TableOf(Replay(owner, Boot(limits), before)), ids, order, Reclaiming(after))
    ensures var s := Replay(owner, Boot(limits), before + [CloseAdmission] + after);
            && s.groups == map[] && s.detached == {}
            && s.created == Replay(owner, Boot(limits), before).created
            && forall g :: 0 <= g < s.created ==> s.cancels[g] == 1
  {
    var closing := before + [CloseAdmission];
    var start, closed := Replay(owner, Boot(limits), before), Replay(owner, Boot(limits), closing);
    assert closing[..|before|] == before;
    NothingDetached(owner, Boot(limits), before);
    RunSplit(owner, Boot(limits), closing, after);
    TableRun(owner, closed, after);
    NothingNew(owner, closed, after);
    UnwindEmpties(TableOf(start), ids, order, Reclaiming(after));
    GroupRun(owner, limits, closing + after);
    var s := Replay(owner, Boot(limits), closing + after);
    forall g | 0 <= g < s.created ensures s.cancels[g] == 1 {
      assert Accounted(s, g);
    }
  }

  // ---------------------------------------------------------------------------
  // The object
  // ---------------------------------------------------------------------------

  /** The runtime of managed tasks; `detached` and `cancels` record what happens to a group after it
      leaves the table. */
  class TaskRuntime {
    var admitting: set<Id>
    var groups: map<Id, nat>
    var critical: nat
    var closed: bool
    var shuttingDown: bool
    var created: nat
    var detached: set<nat>
    var cancels: multiset<nat>
    const budget: WorkloadBudget
    const owner: Attribution

    /** The state, given the goroutines and slots around the budget. */
    ghost function View(around: System): State
      reads this, budget
    {
      State(admitting, groups, critical, closed, shuttingDown, created, detached, cancels,
            around.(core := budget.View()))
    }

    constructor (limits: map<Workload, int>, owner: Attribution)
      ensures View(Budget.Start(limits)) == Boot(limits) && this.owner == owner && fresh(budget)
    {
      this.owner := owner;
      budget := new WorkloadBudget(limits);
      admitting, groups, critical, closed, shuttingDown := {}, map[], 0, false, false;
      created, detached, cancels := 0, {}, multiset{};
    }

    method Open(id: Id, ghost around: System) returns (ok: bool)
      modifies this
      ensures View(around) == Perform(owner, old(View(around)), OpenStart(id))
      ensures ok <==> id in admitting && !closed && !shuttingDown
    {
      if closed || shuttingDown {
        return false;
      }
      admitting := admitting + {id};
      return true;
    }

    method Close(id: Id, ghost around: System)
      modifies this
      ensures View(around) == Perform(owner, old(View(around)), CloseStart(id))
    {
      admitting := admitting - {id};
    }

    method SubmitTask(id: Id, isNil: bool, crit: bool, ghost around: System) returns (ok: bool, ghost after: System)
      modifies this, budget
      ensures ok <==> Admits(owner, old(View(around)), Submit(id, isNil, crit))
      ensures View(after) == Perform(owner, old(View(around)), Submit(id, isNil, crit))
    {
      after := around;
      if isNil || closed || id !in admitting {
        return false, around;
      }
      var w := WorkloadOf(owner, id);
      ghost var system := around.(core := budget.View());
      var v := budget.ChargeOne(w);
      after := Budget.Next(system, Charged(w));
      ChargedCore(system, w);
      if v.Refused? {
        return false, after;
      }
      AdmitTask(id, crit, after);
      return true, after;
    }

    method AdmitTask(id: Id, crit: bool, ghost around: System)
      modifies this
      ensures View(around) == Admit(old(View(around)), id, crit)
    {
      if id !in groups {
        groups, created := groups[id := created], created + 1;
      }
      if crit {
        critical := critical + 1;
      }
    }

    method CloseAll(ghost around: System)
      modifies this
      ensures View(around) == Replay(owner, old(View(around)), [RaiseShutdown, CloseAdmission])
    {
      shuttingDown := true;
      ghost var flagged := View(around);
      closed := true;
      admitting := {};
      assert [RaiseShutdown, CloseAdmission][..1] == [RaiseShutdown];
      assert Replay(owner, old(View(around)), [RaiseShutdown]) == flagged;
    }

    /** The group leaves the table under the lock and is cancelled after it. */
    method StopPlugin(id: Id, ghost around: System) returns (ghost steps: seq<Step>)
      modifies this
      ensures steps == if id in old(groups) then [Detach(id), CancelGroup(old(groups)[id])] else [Detach(id)]
      ensures View(around) == Replay(owner, old(View(around)), steps)
    {
      if id !in groups {
        steps := [Detach(id)];
        return;
      }
      var g := groups[id];
      steps := [Detach(id), CancelGroup(g)];
      assert steps[..1] == [Detach(id)];
      groups, detached := groups - {id}, detached + {g};
      assert Replay(owner, old(View(around)), [Detach(id)]) == View(around);
      detached, cancels := detached - {g}, cancels + multiset{g};
    }

    method Cancel(g: nat, ghost around: System)
      requires g in detached
      modifies this`detached, this`cancels
      ensures View(around) == Perform(owner, old(View(around)), CancelGroup(g))
    {
      detached, cancels := detached - {g}, cancels + multiset{g};
    }

    /** Cancels the groups, in some order. */
    method CancelEach(groups: set<nat>, ghost around: System) returns (ghost sequence: seq<nat>)
      requires groups <= detached
      modifies this`detached, this`cancels
      ensures View(around) == Replay(owner, old(View(around)), CancelSteps(sequence))
      ensures Members(sequence) == groups && detached == old(detached) - groups
    {
      ghost var start := View(around);
      var left := groups;
      sequence := [];
      while left != {}
        invariant left <= groups && left <= detached && detached == old(detached) - (groups - left)
        invariant View(around) == Replay(owner, start, CancelSteps(sequence))
        invariant Members(sequence) == groups - left
        decreases |left|
      {
        var g :| g in left;
        Cancel(g, around);
        CancelOneMore(owner, start, sequence, g);
        CancelledSoFar(old(detached), groups, left, sequence, g);
        sequence := sequence + [g];
        left := left - {g};
      }
    }

    /** Takes every remaining group out of the table and cancels them one by one. */
    method DrainRemaining(ghost around: System) returns (ghost sequence: seq<nat>)
      modifies this
      ensures View(around) == Replay(owner, old(View(around)), [DetachAll] + CancelSteps(sequence))
      ensures Members(sequence) == old(groups).Values
      ensures groups == map[] && detached == old(detached) - old(groups).Values
    {
      ghost var start := View(around);
      var leftovers := groups.Values;
      groups := map[];
      detached := detached + leftovers;
      assert Replay(owner, start, [DetachAll]) == View(around);
      sequence := CancelEach(leftovers, around);
      RunSplit(owner, start, [DetachAll], CancelSteps(sequence));
    }
  }

  lemma CancelledSoFar(start: set<nat>, groups: set<nat>, left: set<nat>, order: seq<nat>, g: nat)
    requires left <= groups && g in left && Members(order) == groups - left
    ensures Members(order + [g]) == groups - (left - {g})
    ensures (start - (groups - left)) - {g} == start - (groups - (left - {g}))
  {
    MembersSnoc(order, g);
  }

  lemma CancelOneMore(owner: Attribution, s: State, order: seq<nat>, g: nat)
    ensures Replay(owner, s, CancelSteps(order + [g]))
            == Perform(owner, Replay(owner, s, CancelSteps(order)), CancelGroup(g))
  {
    CancelStepsSnoc(order, g);
    var es := CancelSteps(order);
    assert (es + [CancelGroup(g)])[..|es|] == es;
  }

  lemma ChargedCore(s: System, w: Workload)
    ensures Budget.Next(s, Charged(w)).core == Charge(s.core, w).0
  {
  }
}
