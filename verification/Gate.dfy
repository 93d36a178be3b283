/** The stop/traffic gate: stop requests from any goroutine race the startup that releases
    traffic and the unwind that takes everything down.  requestStop and releaseTraffic hold
    one mutex, so each is one atomic step; the goroutine that drives execute moves between
    them through its phases. */
module Gate {

  /** `stopCloses` and `gateCloses` count the closes of the two channels: a second close of
      either would panic. */
  datatype Latch = Latch(stopping: bool, reason: string, open: bool, stopCloses: nat, gateCloses: nat,
                         tasks: bool, admissionClosed: bool)

  function RequestStop(l: Latch, reason: string): Latch {
    if l.stopping then l
    else l.(stopping := true, reason := reason, stopCloses := l.stopCloses + 1,
            admissionClosed := l.admissionClosed || l.tasks)
  }

  function ReleaseTraffic(l: Latch): Latch {
    if l.stopping || l.open then l else l.(open := true, gateCloses := l.gateCloses + 1)
  }

  // ---------------------------------------------------------------------------
  // The driving goroutine
  // ---------------------------------------------------------------------------

  /** What unwind does, in the order it does it. */
  datatype Effect = StopWatch | CloseAdmission | PreStopHooks | ReverseWalk | DrainLeftovers

  /** Where execute is.  Unwinding(k): k steps of the once-guarded body are done. */
  datatype Stage =
    | Bootstrap
    | Planning
    | Construction
    | Starting
    | Preparing
    | Releasing
    | CheckingLiveness
    | Waiting
    | Completing                    // migrate and validate claim the completion stop
    | Aborting(why: string)         // unwind called, requestStop not yet made
    | Unwinding(step: nat)
    | Returned

  datatype State = State(latch: Latch, stage: Stage, owned: bool, preStopBudget: nat, effects: seq<Effect>)

  datatype Event =
    | StopRequested(reason: string) // a signal, a critical task, the parent context, a plugin
    | PhaseDone                     // the driver's current phase succeeds
    | PhaseFailed                   // ... or fails
    | CompleteEarly                 // a constructed run that serves nothing

  const STARTUP_FAILED: string := "startup-failed"
  const COMPLETED: string := "completed"

  predicate PreStopRuns(s: State) { s.latch.open && s.owned && s.preStopBudget > 0 }

  /** What step k of the body of unwind does. */
  function StepEffects(s: State, k: nat): seq<Effect> {
    match k
    case 0 => [StopWatch]
    case 1 => if s.latch.tasks then [CloseAdmission] else []
    case 2 => if PreStopRuns(s) then [PreStopHooks] else []
    case 3 => if s.owned then [ReverseWalk] else []
    case 4 => if s.latch.tasks then [DrainLeftovers] else []
    case _ => []
  }

  function UnwindStep(s: State, k: nat): State {
    s.(stage := if k < 4 then Unwinding(k + 1) else Returned,
       latch := if k == 1 && s.latch.tasks then s.latch.(admissionClosed := true) else s.latch,
       effects := s.effects + StepEffects(s, k))
  }

  /** A phase succeeded; the stop flag is looked at where execute looks at it. */
  function Advance(s: State): State {
    match s.stage
    case Bootstrap =>
      var t := s.(latch := s.latch.(tasks := true));
      t.(stage := if t.latch.stopping then Returned else Planning)
    case Planning => s.(stage := if s.latch.stopping then Returned else Construction)
    case Construction =>
      s.(owned := true, stage := if s.latch.stopping then Aborting(STARTUP_FAILED) else Starting)
    case Starting => s.(stage := Preparing)
    case Preparing => s.(stage := Releasing)
    case Releasing =>
      if s.latch.stopping then s.(stage := Aborting(STARTUP_FAILED))
      else s.(latch := ReleaseTraffic(s.latch), stage := CheckingLiveness)
    case CheckingLiveness => s.(stage := Waiting)
    case Waiting => if s.latch.stopping then s.(stage := Aborting(s.latch.reason)) else s
    case Completing => s.(latch := RequestStop(s.latch, COMPLETED), stage := Aborting(COMPLETED))
    case Aborting(why) => s.(latch := RequestStop(s.latch, why), stage := Unwinding(0))
    case Unwinding(k) => UnwindStep(s, k)
    case Returned => s
  }

  function Fail(s: State): State {
    match s.stage
    case Bootstrap => s.(stage := Returned)
    case Planning => s.(stage := Returned)
    case Construction => s.(stage := Returned)
    case Starting => s.(stage := Aborting(STARTUP_FAILED))
    case Preparing => s.(stage := Aborting(STARTUP_FAILED))
    case CheckingLiveness => s.(stage := Aborting(STARTUP_FAILED))
    case Completing => s.(stage := Aborting(STARTUP_FAILED))
    case Releasing => s
    case Waiting => s
    case Aborting(_) => s
    case Unwinding(_) => s
    case Returned => s
  }

  function Next(s: State, e: Event): State {
    match e
    case StopRequested(reason) => s.(latch := RequestStop(s.latch, reason))
    case PhaseDone => Advance(s)
    case PhaseFailed => Fail(s)
    case CompleteEarly => if s.stage == Starting then s.(stage := Completing) else s
  }

  function Start(preStopBudget: nat): State {
    State(Latch(false, "", false, 0, 0, false, false), Bootstrap, false, preStopBudget, [])
  }

  function Run(s: State, es: seq<Event>): State {
    if es == [] then s else Next(Run(s, es[..|es| - 1]), es[|es| - 1])
  }

  // ---------------------------------------------------------------------------
  // What every interleaving keeps
  // ---------------------------------------------------------------------------

  /** How far the body of unwind has come. */
  function StepsDone(s: State): nat {
    match s.stage
    case Unwinding(k) => k
    case Returned => 5
    case _ => 0
  }

  /** The effects of the first k steps, given what the run had reached. */
  function Expected(s: State, k: nat): seq<Effect> {
    if k == 0 then [] else Expected(s, k - 1) + StepEffects(s, k - 1)
  }

  predicate Finishing(s: State) { s.stage.Unwinding? || (s.stage.Returned? && s.effects != []) }

  ghost predicate LatchInv(l: Latch) {
    && l.stopCloses == (if l.stopping then 1 else 0)
    && l.gateCloses == (if l.open then 1 else 0)
  }

  ghost predicate Inv(s: State) {
    && LatchInv(s.latch)
    && (Finishing(s) ==> s.latch.stopping && s.effects == Expected(s, StepsDone(s)))
    && (s.stage.Unwinding? ==> s.stage.step <= 4)
    && (!Finishing(s) ==> s.effects == [])
    && (Finishing(s) && StepsDone(s) > 1 && s.latch.tasks ==> s.latch.admissionClosed)
    && (s.latch.open ==> s.owned && !s.stage.Bootstrap? && !s.stage.Planning? && !s.stage.Construction?)
    && (s.stage.Starting? || s.stage.Preparing? || s.stage.Releasing? || s.stage.Completing? ==> s.owned)
    && (s.owned ==> s.latch.tasks && !s.stage.Bootstrap? && !s.stage.Planning? && !s.stage.Construction?)
    && (s.stage.Planning? || s.stage.Construction? ==> s.latch.tasks)
    && (s.owned && s.stage.Returned? ==> s.effects != [])
    && (s.stage.CheckingLiveness? || s.stage.Waiting? ==> s.latch.open)
  }

  /** Only what StepEffects looks at matters to Expected. */
  lemma {:induction false} ExpectedSame(s: State, t: State, k: nat)
    requires s.latch.tasks == t.latch.tasks && s.owned == t.owned && PreStopRuns(s) == PreStopRuns(t)
    ensures Expected(s, k) == Expected(t, k)
  {
    if k > 0 {
      ExpectedSame(s, t, k - 1);
    }
  }

  lemma UnwindStepKeeps(s: State, k: nat)
    requires Inv(s) && s.stage == Unwinding(k)
    ensures Inv(UnwindStep(s, k))
  {
    ExpectedSame(s, UnwindStep(s, k), k + 1);
  }

  lemma AdvanceKeeps(s: State)
    requires Inv(s)
    ensures Inv(Advance(s))
  {
    if s.stage.Unwinding? {
      UnwindStepKeeps(s, s.stage.step);
    }
  }

  lemma NextKeeps(s: State, e: Event)
    requires Inv(s)
    ensures Inv(Next(s, e))
  {
    match e
    case StopRequested(reason) =>
      ExpectedSame(s, Next(s, e), StepsDone(s));
    case PhaseDone => AdvanceKeeps(s);
    case PhaseFailed =>
    case CompleteEarly =>
  }

  lemma {:induction false} RunKeeps(preStopBudget: nat, es: seq<Event>)
    ensures Inv(Run(Start(preStopBudget), es))
  {
    if es != [] {
      RunKeeps(preStopBudget, es[..|es| - 1]);
      NextKeeps(Run(Start(preStopBudget), es[..|es| - 1]), es[|es| - 1]);
    }
  }

  /** In every interleaving neither channel is closed twice, and each is closed exactly when
      its flag says so. */
  lemma ClosedOnce(preStopBudget: nat, es: seq<Event>)
    ensures var l := Run(Start(preStopBudget), es).latch;
            && l.stopCloses <= 1 && (l.stopCloses == 1 <==> l.stopping)
            && l.gateCloses <= 1 && (l.gateCloses == 1 <==> l.open)
  {
    RunKeeps(preStopBudget, es);
  }

  lemma StoppedStays(s: State, e: Event)
    requires s.latch.stopping
    ensures var l := Next(s, e).latch;
            l.stopping && l.reason == s.latch.reason && l.open == s.latch.open && l.stopCloses == s.latch.stopCloses
            && (s.latch.admissionClosed ==> l.admissionClosed)
  {}

  /** The first stop wins: from then on its reason is the reason, and the gate stays as it is. */
  lemma {:induction false} FirstStopWins(s: State, es: seq<Event>)
    requires s.latch.stopping
    ensures var l := Run(s, es).latch;
            l.stopping && l.reason == s.latch.reason && l.open == s.latch.open && l.stopCloses == s.latch.stopCloses
            && (s.latch.admissionClosed ==> l.admissionClosed)
  {
    if es != [] {
      FirstStopWins(s, es[..|es| - 1]);
      StoppedStays(Run(s, es[..|es| - 1]), es[|es| - 1]);
    }
  }

  /** The first stop is recorded with its own reason, closes admission if there are tasks,
      and is what every later state shows, whatever follows. */
  lemma FirstReasonStands(preStopBudget: nat, es: seq<Event>, reason: string, later: seq<Event>)
    requires !Run(Start(preStopBudget), es).latch.stopping
    ensures var s := Run(Start(preStopBudget), es);
            var l := Run(Next(s, StopRequested(reason)), later).latch;
            && l.stopping && l.reason == reason && l.open == s.latch.open && l.stopCloses == 1
            && (s.latch.tasks ==> l.admissionClosed)
  {
    RunKeeps(preStopBudget, es);
    FirstStopWins(Next(Run(Start(preStopBudget), es), StopRequested(reason)), later);
  }

  /** The place of each effect in a shutdown. */
  function Rank(e: Effect): nat {
    match e
    case StopWatch => 0
    case CloseAdmission => 1
    case PreStopHooks => 2
    case ReverseWalk => 3
    case DrainLeftovers => 4
  }

  /** In place, and none twice. */
  ghost predicate InPlace(effects: seq<Effect>) {
    forall i, j :: 0 <= i < j < |effects| ==> Rank(effects[i]) < Rank(effects[j])
  }

  lemma InPlaceSnoc(x: seq<Effect>, y: seq<Effect>, k: nat)
    requires InPlace(x) && |y| <= 1
    requires forall i :: 0 <= i < |x| ==> Rank(x[i]) < k
    requires forall i :: 0 <= i < |y| ==> Rank(y[i]) == k
    ensures InPlace(x + y) && forall i :: 0 <= i < |x + y| ==> Rank((x + y)[i]) < k + 1
  {}

  lemma {:induction false} ExpectedInPlace(s: State, k: nat)
    ensures InPlace(Expected(s, k)) && forall i :: 0 <= i < |Expected(s, k)| ==> Rank(Expected(s, k)[i]) < k
  {
    if k > 0 {
      ExpectedInPlace(s, k - 1);
      InPlaceSnoc(Expected(s, k - 1), StepEffects(s, k - 1), k - 1);
    }
  }

  lemma {:induction false} ExpectedMember(s: State, k: nat, e: Effect)
    ensures e in Expected(s, k) <==> Rank(e) < k && e in StepEffects(s, Rank(e))
  {
    if k > 0 {
      ExpectedMember(s, k - 1, e);
    }
  }

  /** The body of unwind runs at most once whatever calls it, in its order, and only under a
      recorded stop; the pre-stop hooks run exactly for a run whose gate had opened and whose
      budget is positive, and so after admission is closed and before any Stop. */
  lemma UnwindOnceInOrder(preStopBudget: nat, es: seq<Event>)
    ensures var s := Run(Start(preStopBudget), es);
            && InPlace(s.effects)
            && (s.effects != [] ==> s.latch.stopping)
            && (PreStopHooks in s.effects ==> s.latch.open && s.owned && preStopBudget > 0)
            && (ReverseWalk in s.effects ==> s.owned)
            && (ReverseWalk in s.effects && s.latch.open && preStopBudget > 0 ==> PreStopHooks in s.effects)
            && (PreStopHooks in s.effects && s.latch.tasks ==> s.latch.admissionClosed)
  {
    RunKeeps(preStopBudget, es);
    BudgetStays(preStopBudget, es);
    var s := Run(Start(preStopBudget), es);
    if s.effects != [] {
      ExpectedInPlace(s, StepsDone(s));
      ExpectedMember(s, StepsDone(s), PreStopHooks);
      ExpectedMember(s, StepsDone(s), ReverseWalk);
    }
  }

  /** Everything a teardown does, given what the run had. */
  function Complete(owned: bool, tasks: bool, preStop: bool): seq<Effect> {
    [StopWatch] + (if tasks then [CloseAdmission] else []) + (if preStop then [PreStopHooks] else [])
      + (if owned then [ReverseWalk] else []) + (if tasks then [DrainLeftovers] else [])
  }

  lemma ExpectedComplete(s: State)
    ensures Expected(s, 5) == Complete(s.owned, s.latch.tasks, PreStopRuns(s))
  {
    var b, c := Expected(s, 2), Expected(s, 3);
    assert Expected(s, 0) == [];
    assert Expected(s, 1) == [StopWatch];
    assert b == [StopWatch] + (if s.latch.tasks then [CloseAdmission] else []);
    assert c == b + (if PreStopRuns(s) then [PreStopHooks] else []);
    assert Expected(s, 4) == c + (if s.owned then [ReverseWalk] else []);
  }

  /** A run that owns anything returns only when all of the teardown has happened: the watch
      is stopped, admission closed, every instance walked, the leftover tasks drained, and
      the pre-stop hooks run exactly when the gate had opened and there is a budget. */
  lemma TeardownComplete(preStopBudget: nat, es: seq<Event>)
    ensures var s := Run(Start(preStopBudget), es);
            s.stage.Returned? && s.owned
            ==> s.effects == Complete(true, true, s.latch.open && preStopBudget > 0) && s.latch.admissionClosed
  {
    RunKeeps(preStopBudget, es);
    BudgetStays(preStopBudget, es);
    ExpectedComplete(Run(Start(preStopBudget), es));
  }

  // ---------------------------------------------------------------------------
  // Progress
  // ---------------------------------------------------------------------------

  /** n phases in a row succeed. */
  function Phases(n: nat): (es: seq<Event>)
    ensures |es| == n
  {
    if n == 0 then [] else Phases(n - 1) + [PhaseDone]
  }

  function Through(s: State, n: nat): State {
    if n == 0 then s else Advance(Through(s, n - 1))
  }

  lemma {:induction false} PhasesRun(s: State, n: nat)
    ensures Run(s, Phases(n)) == Through(s, n)
  {
    if n > 0 {
      PhasesRun(s, n - 1);
      PhasesSnoc(n);
    }
  }

  lemma PhasesSnoc(n: nat)
    requires n > 0
    ensures Phases(n)[..n - 1] == Phases(n - 1) && Phases(n)[n - 1] == PhaseDone
  {}

  /** How many phases are left once a stop is recorded. */
  function Remaining(stage: Stage): nat {
    match stage
    case Bootstrap => 1
    case Planning => 1
    case Construction => 7
    case Starting => 9
    case Preparing => 8
    case Releasing => 7
    case CheckingLiveness => 8
    case Waiting => 7
    case Completing => 7
    case Aborting(_) => 6
    case Unwinding(k) => if k <= 4 then 5 - k else 1
    case Returned => 0
  }

  lemma StopAdvances(s: State)
    requires s.latch.stopping
    ensures Advance(s).latch.stopping
    ensures Remaining(Advance(s).stage) == if s.stage.Returned? then 0 else Remaining(s.stage) - 1
  {}

  lemma {:induction false} StopRunsOut(s: State, n: nat)
    requires s.latch.stopping
    ensures var t := Through(s, n);
            t.latch.stopping && Remaining(t.stage) == (if n <= Remaining(s.stage) then Remaining(s.stage) - n else 0)
  {
    if n > 0 {
      StopRunsOut(s, n - 1);
      StopAdvances(Through(s, n - 1));
    }
  }

  /** A recorded stop is served: whatever happened before it, nine more phases that succeed
      bring the run to its end. */
  lemma StopIsServed(preStopBudget: nat, es: seq<Event>, n: nat)
    requires Run(Start(preStopBudget), es).latch.stopping && n >= 9
    ensures Run(Run(Start(preStopBudget), es), Phases(n)).stage.Returned?
  {
    PhasesRun(Run(Start(preStopBudget), es), n);
    StopRunsOut(Run(Start(preStopBudget), es), n);
  }

  /** From a state with a stop recorded the run ends, and the stop is what it shows. */
  lemma StoppedEnds(s: State, n: nat)
    requires s.latch.stopping && n >= 9
    ensures var t := Run(s, Phases(n));
            t.stage.Returned? && t.latch.reason == s.latch.reason && t.latch.open == s.latch.open
  {
    PhasesRun(s, n);
    StopRunsOut(s, n);
    FirstStopWins(s, Phases(n));
  }

  /** Traffic is let in only after the whole start succeeded. */
  predicate Starts(stage: Stage) {
    stage in {Bootstrap, Planning, Construction, Starting, Preparing, Releasing, Completing}
  }

  lemma OpensLateStep(s: State, e: Event)
    requires s.latch.open ==> !Starts(s.stage)
    ensures Next(s, e).latch.open ==> !Starts(Next(s, e).stage)
  {
    match e
    case StopRequested(_) =>
    case PhaseDone =>
    case PhaseFailed =>
    case CompleteEarly =>
  }

  lemma {:induction false} GateOpensLate(preStopBudget: nat, es: seq<Event>)
    ensures var s := Run(Start(preStopBudget), es); s.latch.open ==> !Starts(s.stage)
  {
    if es != [] {
      GateOpensLate(preStopBudget, es[..|es| - 1]);
      OpensLateStep(Run(Start(preStopBudget), es[..|es| - 1]), es[|es| - 1]);
    }
  }

  lemma CompletionIsStop(s: State)
    requires s.stage == Starting
    ensures var t := Next(Next(s, CompleteEarly), PhaseDone);
            && t.latch.stopping && t.latch.open == s.latch.open
            && t.latch.reason == if s.latch.stopping then s.latch.reason else "completed"
  {}

  lemma FailureIsStop(s: State)
    requires s.stage in {Starting, Preparing, CheckingLiveness, Completing}
    ensures var t := Next(Next(s, PhaseFailed), PhaseDone);
            && t.latch.stopping && t.latch.open == s.latch.open
            && t.latch.reason == if s.latch.stopping then s.latch.reason else "startup-failed"
  {}

  /** A run that serves nothing completes: it is taken down as completed, the gate closed. */
  lemma EarlyCompletes(preStopBudget: nat, es: seq<Event>, n: nat)
    requires Run(Start(preStopBudget), es).stage == Starting && n >= 9
    ensures var s := Run(Start(preStopBudget), es);
            var t := Run(Next(Next(s, CompleteEarly), PhaseDone), Phases(n));
            && t.stage.Returned? && !t.latch.open
            && t.latch.reason == if s.latch.stopping then s.latch.reason else "completed"
  {
    GateOpensLate(preStopBudget, es);
    CompletionIsStop(Run(Start(preStopBudget), es));
    StoppedEnds(Next(Next(Run(Start(preStopBudget), es), CompleteEarly), PhaseDone), n);
  }

  /** A failed start is taken down once anything is owned, and returns at once before that. */
  lemma FailureIsServed(preStopBudget: nat, es: seq<Event>, n: nat)
    requires n >= 9 && Run(Start(preStopBudget), es).stage in {Starting, Preparing, CheckingLiveness, Completing}
    ensures var s := Run(Start(preStopBudget), es);
            var t := Run(Next(Next(s, PhaseFailed), PhaseDone), Phases(n));
            && t.stage.Returned? && t.latch.open == s.latch.open
            && t.latch.reason == if s.latch.stopping then s.latch.reason else "startup-failed"
  {
    FailureIsStop(Run(Start(preStopBudget), es));
    StoppedEnds(Next(Next(Run(Start(preStopBudget), es), PhaseFailed), PhaseDone), n);
  }

  lemma EarlyFailureReturns(s: State)
    requires s.stage in {Bootstrap, Planning, Construction}
    ensures Next(s, PhaseFailed) == s.(stage := Returned)
  {}

  /** How many phases an undisturbed start has ahead of it. */
  function Ahead(stage: Stage): nat {
    match stage
    case Bootstrap => 7
    case Planning => 6
    case Construction => 5
    case Starting => 4
    case Preparing => 3
    case Releasing => 2
    case CheckingLiveness => 1
    case _ => 0
  }

  predicate OnTheWay(s: State) {
    && !s.latch.stopping && s.effects == [] && (s.stage == Waiting || Ahead(s.stage) > 0)
    && (Ahead(s.stage) <= 4 ==> s.owned) && (Ahead(s.stage) <= 1 ==> s.latch.open)
  }

  lemma StartAdvances(s: State)
    requires OnTheWay(s)
    ensures OnTheWay(Advance(s)) && Ahead(Advance(s).stage) == if s.stage == Waiting then 0 else Ahead(s.stage) - 1
  {}

  lemma {:induction false} StartRunsOn(s: State, n: nat)
    requires OnTheWay(s)
    ensures OnTheWay(Through(s, n))
    ensures Ahead(Through(s, n).stage) == if n <= Ahead(s.stage) then Ahead(s.stage) - n else 0
  {
    if n > 0 {
      StartRunsOn(s, n - 1);
      StartAdvances(Through(s, n - 1));
    }
  }

  /** A start that nothing disturbs opens the gate and waits. */
  lemma StartServes(preStopBudget: nat, n: nat)
    requires n >= 7
    ensures var s := Run(Start(preStopBudget), Phases(n));
            s.stage == Waiting && s.latch.open && s.owned && !s.latch.stopping && s.effects == []
  {
    PhasesRun(Start(preStopBudget), n);
    StartRunsOn(Start(preStopBudget), n);
  }

  lemma {:induction false} BudgetStays(preStopBudget: nat, es: seq<Event>)
    ensures Run(Start(preStopBudget), es).preStopBudget == preStopBudget
  {
    if es != [] {
      BudgetStays(preStopBudget, es[..|es| - 1]);
    }
  }

  // ---------------------------------------------------------------------------
  // The object
  // ---------------------------------------------------------------------------

  class App {
    var stopping: bool
    var reason: string
    var open: bool
    var stopCloses: nat
    var gateCloses: nat
    var tasks: bool
    var admissionClosed: bool
    var unwound: bool
    var owned: bool
    var preStopBudget: nat
    var effects: seq<Effect>

    ghost function View(): Latch
      reads this
    {
      Latch(stopping, reason, open, stopCloses, gateCloses, tasks, admissionClosed)
    }

    ghost function At(stage: Stage): State
      reads this
    {
      State(View(), stage, owned, preStopBudget, effects)
    }

    /** First stop wins; the answer says whether this one did. */
    method RequestStopWithCause(why: string) returns (first: bool)
      modifies this
      ensures View() == RequestStop(old(View()), why) && first == !old(stopping)
      ensures unwound == old(unwound) && owned == old(owned) && preStopBudget == old(preStopBudget)
              && effects == old(effects)
    {
      if stopping {
        return false;
      }
      stopping := true;
      reason := why;
      if tasks {
        admissionClosed := true;
      }
      stopCloses := stopCloses + 1;
      return true;
    }

    method ReleaseTrafficGate() returns (released: bool)
      modifies this`open, this`gateCloses
      ensures View() == ReleaseTraffic(old(View())) && released == !stopping
    {
      if stopping {
        return false;
      }
      if !open {
        open := true;
        gateCloses := gateCloses + 1;
      }
      return true;
    }

    /** The teardown's preamble: no reload and no admission from here on. */
    method CloseDown()
      modifies this
      ensures At(Unwinding(2)) == UnwindStep(UnwindStep(old(At(Unwinding(0))), 0), 1) && unwound == old(unwound)
      ensures effects == old(effects) + [StopWatch] + (if tasks then [CloseAdmission] else [])
    {
      effects := effects + [StopWatch];
      if tasks {
        admissionClosed := true;
        effects := effects + [CloseAdmission];
      }
    }

    method RunPreStopPhase()
      modifies this`effects
      ensures At(Unwinding(3)) == UnwindStep(old(At(Unwinding(2))), 2)
      ensures effects == old(effects) + (if open && owned && preStopBudget > 0 then [PreStopHooks] else [])
    {
      if open && owned && preStopBudget > 0 {
        effects := effects + [PreStopHooks];
      }
    }

    method TakeDown()
      modifies this`effects
      ensures At(Returned) == UnwindStep(UnwindStep(old(At(Unwinding(3))), 3), 4)
      ensures effects == old(effects) + (if owned then [ReverseWalk] else []) + (if tasks then [DrainLeftovers] else [])
    {
      if owned {
        effects := effects + [ReverseWalk];
      }
      if tasks {
        effects := effects + [DrainLeftovers];
      }
    }

    /** The body is the driver's five steps, once. */
    method Unwind(why: string)
      modifies this
      ensures unwound
      ensures old(unwound) ==> View() == RequestStop(old(View()), why) && effects == old(effects)
      ensures !old(unwound) ==> At(Returned) == Body(Advance(old(At(Aborting(why)))))
      ensures !old(unwound) ==>
                effects == old(effects) + Complete(old(owned), old(tasks), old(open && owned && preStopBudget > 0))
    {
      var _ := RequestStopWithCause(why);
      if unwound {
        return;
      }
      unwound := true;
      CloseDown();
      RunPreStopPhase();
      TakeDown();
      AllOfIt(old(effects), owned, tasks, open && owned && preStopBudget > 0);
    }
  }

  lemma AllOfIt(before: seq<Effect>, owned: bool, tasks: bool, preStop: bool)
    ensures before + [StopWatch] + (if tasks then [CloseAdmission] else []) + (if preStop then [PreStopHooks] else [])
            + (if owned then [ReverseWalk] else []) + (if tasks then [DrainLeftovers] else [])
            == before + Complete(owned, tasks, preStop)
  {}

  /** The five steps of the unwind body. */
  function Body(s: State): State {
    UnwindStep(UnwindStep(UnwindStep(UnwindStep(UnwindStep(s, 0), 1), 2), 3), 4)
  }

  /** Stop requests that land between the steps of an unwind change nothing. */
  lemma RequestsDuringUnwind(s: State, k: nat, reason: string)
    requires s.latch.stopping
    ensures Next(UnwindStep(s, k), StopRequested(reason)) == UnwindStep(s, k)
    ensures UnwindStep(Next(s, StopRequested(reason)), k) == UnwindStep(s, k)
  {}
}
