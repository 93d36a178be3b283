/** The debounced file watch: one timer for all files, at most one callback at a time, and
    per file a watch that is armed again whenever it ends.  Each lock-held region of
    `fileWatch` is one atomic function on `Core`; `State` adds the goroutines around it. */
module Watch {

  /** `made`: the timer exists; `armed`: it is going to expire. */
  datatype Core = Core(stopping: bool, pending: bool, running: bool, made: bool, armed: bool)

  /** A change is reported; it is dropped only when stopping. */
  function Changed(c: Core): Core {
    if c.stopping || c.pending then c else c.(pending := true, made := true, armed := true)
  }

  /** fire up to its unlock: begins the callback, or leaves the report owed. */
  function FireBegin(c: Core): Core {
    if c.stopping then c
    else if c.running then c.(pending := true)
    else c.(pending := false, running := true)
  }

  /** What runs when the callback has returned. */
  function FireEnd(c: Core): Core {
    if c.pending && !c.stopping then c.(running := false, pending := false, armed := true) else c.(running := false)
  }

  function StopBegin(c: Core): Core { c.(stopping := true, armed := false) }

  // ---------------------------------------------------------------------------
  // Interleavings
  // ---------------------------------------------------------------------------

  /** Gap: nothing watches the file.  Late: armed, but the arm has not reported yet. */
  datatype Phase = Gap | Late | Armed | Exited

  /** `first`: no arm attempt has been made yet; `present`: the file existed at the start;
      `missed`: it was written while nothing watched it; `unheard`: an event of the armed
      provider is on its way; `ended`: the provider's loop is over. */
  datatype File = File(phase: Phase, first: bool, present: bool, missed: bool, unheard: bool, ended: bool)

  /** `inflight` timer goroutines have not taken the lock yet, `active` callbacks are
      executing, `leaving` ones have still to tell the wait group; `starts` counts callbacks
      begun, `reports` changes accepted and `told` how many of them had been accepted when
      the last callback began. */
  datatype State = State(core: Core, files: seq<File>, inflight: nat, active: int, leaving: int, starts: nat,
                         reports: nat, told: nat, done: bool, returned: bool)

  datatype Event =
    | Written(file: nat)          // somebody writes the file
    | Heard(file: nat)            // the provider delivers an event
    | LoopEnded(file: nat)        // the provider's loop ends: the file is gone
    | ArmAttempt(file: nat, ok: bool)
    | ArmReport(file: nat)
    | RoundOver(file: nat)        // the file's goroutine sees the loop ended
    | Leave(file: nat)            // the file's goroutine sees done
    | TimerExpired
    | Fire
    | CallbackReturned
    | CallbackDone
    | Stop                        // stop's lock-held region
    | CloseDone
    | StopReturned                // after joining the files and the callback

  predicate CallbackBegins(s: State) { s.inflight > 0 && !s.core.stopping && !s.core.running }

  function Report(s: State): State {
    s.(core := Changed(s.core), reports := if s.core.stopping then s.reports else s.reports + 1)
  }

  /** A write to a present file before its first arm attempt is not promised a report. */
  function Touch(f: File): File {
    match f.phase
    case Armed => if f.ended then f.(missed := true) else f.(unheard := true)
    case Late => if f.ended then f.(missed := true) else f.(unheard := true)
    case Gap => if f.first && f.present then f else f.(missed := true)
    case Exited => f
  }

  predicate Watched(f: File) { (f.phase == Armed || f.phase == Late) && !f.ended }

  predicate OfFile(e: Event) {
    e.Written? || e.Heard? || e.LoopEnded? || e.ArmAttempt? || e.ArmReport? || e.RoundOver? || e.Leave?
  }

  /** Does the event end in a report? */
  predicate Reports(s: State, f: File, e: Event) {
    match e
    case Heard(_) => !s.done && Watched(f)
    case LoopEnded(_) => !s.done && Watched(f)
    case ArmReport(_) => f.phase == Late
    case _ => false
  }

  /** What the event does to its file. */
  function FileNext(s: State, f: File, e: Event): File
    requires OfFile(e)
  {
    match e
    case Written(_) => Touch(f)
    case Heard(_) => if Reports(s, f, e) then f.(unheard := false) else f
    case LoopEnded(_) => if Reports(s, f, e) then f.(ended := true, unheard := false) else f
    case ArmAttempt(_, ok) =>
      if f.phase != Gap then f
      else if !ok then f.(first := false)
      else f.(phase := if f.first && f.present then Armed else Late, first := false, ended := false)
    case ArmReport(_) => if f.phase == Late then f.(phase := Armed, missed := false) else f
    case RoundOver(_) => if f.phase == Armed && f.ended then f.(phase := Gap) else f
    case Leave(_) => if s.done && f.phase != Late then f.(phase := Exited) else f
  }

  function FileStep(s: State, e: Event): State
    requires OfFile(e)
  {
    if e.file >= |s.files| then s
    else
      var f := s.files[e.file];
      var t := s.(files := s.files[e.file := FileNext(s, f, e)]);
      if Reports(s, f, e) then Report(t) else t
  }

  function Next(s: State, e: Event): State {
    match e
    case TimerExpired =>
      if s.core.armed then s.(core := s.core.(armed := false), inflight := s.inflight + 1) else s
    case Fire =>
      if s.inflight == 0 then s
      else
        var t := s.(core := FireBegin(s.core), inflight := s.inflight - 1);
        if CallbackBegins(s) then t.(active := s.active + 1, starts := s.starts + 1, told := s.reports) else t
    case CallbackReturned =>
      if s.active <= 0 then s
      else s.(core := FireEnd(s.core), active := s.active - 1, leaving := s.leaving + 1)
    case CallbackDone => if s.leaving <= 0 then s else s.(leaving := s.leaving - 1)
    case Stop => s.(core := StopBegin(s.core))
    case CloseDone => if s.core.stopping then s.(done := true) else s
    case StopReturned =>
      if s.done && (forall i :: 0 <= i < |s.files| ==> s.files[i].phase == Exited) && s.active + s.leaving == 0
      then s.(returned := true) else s
    case _ => FileStep(s, e)
  }

  function Start(present: seq<bool>): State {
    State(Core(false, false, false, false, false),
          seq(|present|, i requires 0 <= i < |present| => File(Gap, true, present[i], false, false, false)),
          0, 0, 0, 0, 0, 0, false, false)
  }

  function Run(s: State, es: seq<Event>): State {
    if es == [] then s else Next(Run(s, es[..|es| - 1]), es[|es| - 1])
  }

  // ---------------------------------------------------------------------------
  // What every interleaving keeps
  // ---------------------------------------------------------------------------

  /** Something is going to begin a callback, or to arm the timer for one. */
  predicate Covered(s: State) { s.core.armed || s.inflight > 0 || (s.core.running && s.core.pending) }

  /** A write nobody watched will be reported by the arm that ends the gap. */
  predicate FileInv(done: bool, f: File) {
    && (f.missed ==> match f.phase
                     case Gap => !(f.first && f.present)
                     case Armed => f.ended
                     case Late => true
                     case Exited => true)
    && (f.unheard && f.phase != Exited ==> Watched(f))
    && (f.phase == Exited ==> done)
    && (f.phase == Armed || f.phase == Late ==> !f.first)
  }

  ghost predicate FilesInv(s: State) {
    forall i :: 0 <= i < |s.files| ==> FileInv(s.done, s.files[i])
  }

  ghost predicate CoreInv(s: State) {
    && (s.core.pending && !s.core.stopping ==> Covered(s) || s.core.running)
    && (s.reports > s.told && !s.core.stopping ==> Covered(s))
    && s.active == (if s.core.running then 1 else 0) && s.leaving >= 0 && s.told <= s.reports
    && (s.core.armed || s.inflight > 0 || s.core.running ==> s.core.made)
    && (s.core.stopping ==> !s.core.armed)
    && (s.done ==> s.core.stopping)
    && (s.returned ==> s.done && s.active == 0 && s.leaving == 0)
  }

  ghost predicate Inv(s: State) { CoreInv(s) && FilesInv(s) }

  lemma FileNextKeeps(s: State, f: File, e: Event)
    requires OfFile(e) && FileInv(s.done, f)
    ensures FileInv(s.done, FileNext(s, f, e))
  {}

  lemma FileStepKeeps(s: State, e: Event)
    requires Inv(s) && OfFile(e)
    ensures Inv(FileStep(s, e))
  {
    if e.file < |s.files| {
      FileNextKeeps(s, s.files[e.file], e);
      assert FilesInv(s.(files := s.files[e.file := FileNext(s, s.files[e.file], e)]));
    }
  }

  lemma NextKeeps(s: State, e: Event)
    requires Inv(s)
    ensures Inv(Next(s, e))
  {
    match e
    case TimerExpired =>
    case Fire =>
    case CallbackReturned =>
    case CallbackDone =>
    case Stop =>
    case CloseDone =>
    case StopReturned =>
    case _ => FileStepKeeps(s, e);
  }

  lemma {:induction false} RunKeeps(present: seq<bool>, es: seq<Event>)
    ensures Inv(Run(Start(present), es))
  {
    if es != [] {
      RunKeeps(present, es[..|es| - 1]);
      NextKeeps(Run(Start(present), es[..|es| - 1]), es[|es| - 1]);
    }
  }

  /** Watch safety.  However the goroutines interleave: a change accepted since the last
      callback began is covered by an armed timer, a timer goroutine in flight, or a running
      callback that owes a follow-up; callbacks never overlap; and the timer that the end of
      a callback re-arms exists. */
  lemma NoReportLost(present: seq<bool>, es: seq<Event>)
    ensures var s := Run(Start(present), es);
            && (s.reports > s.told && !s.core.stopping ==> Covered(s))
            && 0 <= s.active <= 1
            && (s.active > 0 ==> s.core.made)
  {
    RunKeeps(present, es);
  }

  /** A file written while nothing watched it is either still unwatched with a reporting arm
      ahead of it, or armed with that report outstanding -- unless the watch is stopping. */
  lemma NoWriteDropped(present: seq<bool>, es: seq<Event>, i: nat)
    requires i < |Run(Start(present), es).files|
    ensures var s := Run(Start(present), es);
            var f := s.files[i];
            && (f.missed && !s.done ==> f.phase == Late || (f.phase == Gap && !(f.first && f.present))
                                        || (f.phase == Armed && f.ended))
            && (f.unheard && !s.done ==> Watched(f))
  {
    RunKeeps(present, es);
    assert FileInv(Run(Start(present), es).done, Run(Start(present), es).files[i]);
  }

  /** A write is owed a report, but for one before the first arm of a file that was there. */
  lemma WriteIsOwed(s: State, i: nat)
    requires i < |s.files| && s.files[i].phase != Exited
    ensures var f, g := s.files[i], Next(s, Written(i)).files[i];
            !(f.phase == Gap && f.first && f.present) ==> g.missed || g.unheard
  {}

  /** Arming reports once, in two steps, exactly when there is a gap behind it: the first arm
      of a file that was there from the start is silent.  The report covers what the gap
      swallowed. */
  lemma RearmReports(s: State, i: nat)
    requires Inv(s) && i < |s.files| && s.files[i].phase == Gap && !s.core.stopping
    ensures var f, t := s.files[i], Next(Next(s, ArmAttempt(i, true)), ArmReport(i));
            && t.reports == (if f.first && f.present then s.reports else s.reports + 1) && t.told == s.told
            && t.files[i].phase == Armed && !t.files[i].missed && (t.reports > t.told ==> Covered(t))
  {
    assert FileInv(s.done, s.files[i]);
    NextKeeps(s, ArmAttempt(i, true));
    NextKeeps(Next(s, ArmAttempt(i, true)), ArmReport(i));
  }

  /** Every event of an armed provider is reported, its end included, and no other is. */
  lemma EventReports(s: State, i: nat)
    requires Inv(s) && i < |s.files|
    ensures var f := s.files[i];
            var heard := (f.phase == Armed || f.phase == Late) && !f.ended && !s.core.stopping;
            && Next(s, Heard(i)).reports == Next(s, LoopEnded(i)).reports == s.reports + Bit(heard)
            && (heard ==> Covered(Next(s, Heard(i))) && Covered(Next(s, LoopEnded(i))))
            && (heard ==> Next(s, Heard(i)).core.pending && Next(s, Heard(i)).files[i] == f.(unheard := false))
            && (s.core.pending ==> Next(s, Heard(i)).core == s.core)
  {
    NextKeeps(s, Heard(i));
    NextKeeps(s, LoopEnded(i));
  }

  /** What is owed is delivered: let the running callback return, the timer expire and its
      goroutine take the lock, and a callback begins that every accepted report precedes. */
  lemma OwedIsDelivered(present: seq<bool>, es: seq<Event>)
    ensures var s := Run(Start(present), es);
            var a := if s.core.running then Next(s, CallbackReturned) else s;
            var b := if a.inflight == 0 then Next(a, TimerExpired) else a;
            var c := Next(b, Fire);
            s.reports > s.told && !s.core.stopping
            ==> c.starts == s.starts + 1 && c.active == 1 && c.told == s.reports == c.reports
  {
    RunKeeps(present, es);
  }

  function Bit(b: bool): nat { if b then 1 else 0 }

  /** The callbacks begun and those still to come of what is reported. */
  function Spent(s: State): int { s.starts + s.inflight + Bit(s.core.armed) + Bit(s.core.pending) }

  lemma SpentStep(s: State, e: Event)
    requires Spent(s) <= 2 * s.reports
    ensures Spent(Next(s, e)) <= 2 * Next(s, e).reports
  {
    match e
    case TimerExpired =>
    case Fire =>
    case CallbackReturned =>
    case _ =>
  }

  /** No callback without a change: there are never more than two for each reported one, and
      none before the first. */
  lemma {:induction false} NoSpuriousCallback(present: seq<bool>, es: seq<Event>)
    ensures var s := Run(Start(present), es);
            Spent(s) <= 2 * s.reports && s.starts <= 2 * s.reports
  {
    if es != [] {
      NoSpuriousCallback(present, es[..|es| - 1]);
      SpentStep(Run(Start(present), es[..|es| - 1]), es[|es| - 1]);
    }
  }

  /** Nothing is under way. */
  predicate Quiet(s: State) { !s.core.armed && !s.core.pending && !s.core.running && s.inflight == 0 }

  /** One callback settles one change: when it has returned and nothing was reported
      meanwhile, nothing is under way. */
  lemma CallbackSettles(s: State)
    requires Inv(s) && s.inflight == 1 && !s.core.armed && !s.core.running && !s.core.stopping
    ensures var t := Next(s, Fire); t.starts == s.starts + 1 && Quiet(Next(t, CallbackReturned))
  {}

  lemma QuietStep(s: State, e: Event)
    requires Inv(s) && Quiet(s) && !(e.Heard? || e.LoopEnded? || e.ArmReport?)
    ensures Quiet(Next(s, e)) && Next(s, e).starts == s.starts
  {
    match e
    case TimerExpired =>
    case Fire =>
    case CallbackReturned =>
    case CallbackDone =>
    case Stop =>
    case CloseDone =>
    case StopReturned =>
    case _ =>
  }

  /** And no callback begins again until something is reported. */
  lemma {:induction false} QuietStays(s: State, es: seq<Event>)
    requires Inv(s) && Quiet(s) && Carriers(es) == 0
    ensures Inv(Run(s, es)) && Quiet(Run(s, es)) && Run(s, es).starts == s.starts
  {
    if es != [] {
      QuietStays(s, es[..|es| - 1]);
      QuietStep(Run(s, es[..|es| - 1]), es[|es| - 1]);
      NextKeeps(Run(s, es[..|es| - 1]), es[|es| - 1]);
    }
  }

  /** The events that can carry a report. */
  function Carriers(es: seq<Event>): nat {
    if es == [] then 0
    else
      var e := es[|es| - 1];
      Carriers(es[..|es| - 1]) + Bit(e.Heard? || e.LoopEnded? || e.ArmReport?)
  }

  /** A change is reported at most once per provider event or arm: bursts collapse, and
      nothing is reported of its own accord. */
  lemma {:induction false} ReportsAreCarried(present: seq<bool>, es: seq<Event>)
    ensures Run(Start(present), es).reports <= Carriers(es)
  {
    if es != [] {
      ReportsAreCarried(present, es[..|es| - 1]);
    }
  }

  /** Once stop has returned, no callback is executing and none begins, ever. */
  lemma {:induction false} QuietAfterStop(present: seq<bool>, es: seq<Event>, n: nat)
    requires n <= |es| && Run(Start(present), es[..n]).returned
    ensures var s, t := Run(Start(present), es[..n]), Run(Start(present), es);
            t.active == 0 && t.starts == s.starts && t.returned
  {
    RunKeeps(present, es);
    if n == |es| {
      assert es[..n] == es;
    } else {
      var before := es[..|es| - 1];
      assert before[..n] == es[..n];
      QuietAfterStop(present, before, n);
      RunKeeps(present, before);
      ReturnedStays(Run(Start(present), before), es[|es| - 1]);
    }
  }

  lemma ReturnedStays(s: State, e: Event)
    requires Inv(s) && s.returned
    ensures Next(s, e).starts == s.starts && Next(s, e).returned
  {
    match e
    case Fire =>
    case _ =>
  }

  /** A stopping watch accepts no change and begins no callback. */
  lemma {:induction false} NothingAfterStopping(s: State, es: seq<Event>)
    requires s.core.stopping
    ensures var t := Run(s, es); t.core.stopping && t.reports == s.reports && t.starts == s.starts
  {
    if es != [] {
      NothingAfterStopping(s, es[..|es| - 1]);
      StoppingStays(Run(s, es[..|es| - 1]), es[|es| - 1]);
    }
  }

  lemma StoppingStays(s: State, e: Event)
    requires s.core.stopping
    ensures var t := Next(s, e); t.core.stopping && t.reports == s.reports && t.starts == s.starts
  {
    match e
    case Fire =>
    case _ =>
  }

  // ---------------------------------------------------------------------------
  // Progress of a file and of stop
  // ---------------------------------------------------------------------------

  /** A failed arm leaves the file unwatched, and the arm that succeeds at last reports. */
  lemma FailedArmRetries(s: State, i: nat)
    requires Inv(s) && i < |s.files| && s.files[i].phase == Gap && !s.core.stopping
    ensures var t := Next(s, ArmAttempt(i, false));
            && t == s.(files := s.files[i := s.files[i].(first := false)])
            && Next(Next(t, ArmAttempt(i, true)), ArmReport(i)).reports == s.reports + 1
  {
    NextKeeps(s, ArmAttempt(i, false));
    RearmReports(Next(s, ArmAttempt(i, false)), i);
  }

  /** A file that goes away and comes back is watched again, and both are reported. */
  lemma LoopRearms(s: State, i: nat)
    requires Inv(s) && i < |s.files| && s.files[i].phase == Armed && !s.files[i].ended && !s.core.stopping
    ensures var gone := Next(Next(s, LoopEnded(i)), RoundOver(i));
            var back := Next(Next(Next(gone, Written(i)), ArmAttempt(i, true)), ArmReport(i));
            && gone.files[i].phase == Gap && gone.reports == s.reports + 1
            && Watched(back.files[i]) && !back.files[i].missed && back.reports == s.reports + 2
  {
    EventReports(s, i);
    NextKeeps(s, LoopEnded(i));
    var ended := Next(s, LoopEnded(i));
    NextKeeps(ended, RoundOver(i));
    var gone := Next(ended, RoundOver(i));
    NextKeeps(gone, Written(i));
    RearmReports(Next(gone, Written(i)), i);
  }

  /** The goroutine of file i comes to its next select and sees done. */
  function Depart(s: State, i: nat): State { Next(Next(s, ArmReport(i)), Leave(i)) }

  function DepartAll(s: State, n: nat): State {
    if n == 0 then s else Depart(DepartAll(s, n - 1), n - 1)
  }

  lemma Departs(s: State, i: nat)
    requires s.done && s.core.stopping && i < |s.files|
    ensures var t := Depart(s, i);
            t == s.(files := t.files) && |t.files| == |s.files| && t.files[i].phase == Exited
            && forall j :: 0 <= j < |s.files| && j != i ==> t.files[j] == s.files[j]
  {
    var told := Next(s, ArmReport(i));
    assert told == s.(files := told.files);
  }

  lemma {:induction false} AllDepart(s: State, n: nat)
    requires s.done && s.core.stopping && n <= |s.files|
    ensures var t := DepartAll(s, n);
            && t == s.(files := t.files) && |t.files| == |s.files|
            && forall i :: 0 <= i < n ==> t.files[i].phase == Exited
  {
    if n > 0 {
      AllDepart(s, n - 1);
      Departs(DepartAll(s, n - 1), n - 1);
    }
  }

  function DoneTimes(s: State, n: nat): State {
    if n == 0 then s else Next(DoneTimes(s, n - 1), CallbackDone)
  }

  lemma {:induction false} DoneCounts(s: State, n: nat)
    requires n <= s.leaving
    ensures DoneTimes(s, n) == s.(leaving := s.leaving - n)
  {
    if n > 0 {
      DoneCounts(s, n - 1);
    }
  }

  /** The callbacks that stop has still to wait for. */
  function Busy(s: State): int { s.active + s.leaving }

  /** A callback is waited for from its begin until it has told the wait group, and stop
      returns only when none is and every file goroutine has left. */
  lemma StopWaits(s: State, e: Event)
    requires Inv(s)
    ensures var t := Next(s, e);
            && Busy(t) == Busy(s) + (t.starts - s.starts) - Bit(e == CallbackDone && s.leaving > 0)
            && (t.returned && !s.returned ==>
                  s.done && Busy(s) == 0 && forall i :: 0 <= i < |s.files| ==> s.files[i].phase == Exited)
  {
    match e
    case TimerExpired =>
    case Fire =>
    case CallbackReturned =>
    case CallbackDone =>
    case Stop =>
    case CloseDone =>
    case StopReturned =>
    case _ =>
  }

  function Stopped(s: State): State { Next(Next(s, Stop), CloseDone) }

  lemma StopSets(s: State)
    ensures Stopped(s) == s.(core := s.core.(stopping := true, armed := false), done := true)
  {}

  lemma LastReturns(s: State)
    requires s.done && s.active == 0 && s.leaving >= 0
    requires forall i :: 0 <= i < |s.files| ==> s.files[i].phase == Exited
    ensures Next(DoneTimes(s, s.leaving), StopReturned).returned
  {
    DoneCounts(s, s.leaving);
  }

  lemma CallbackLeaves(s: State)
    requires 0 <= s.active <= 1 && s.leaving >= 0
    ensures var t := Next(s, CallbackReturned);
            t.active == 0 && t.leaving >= 0 && t.files == s.files && t.done == s.done
  {}

  /** stop returns: whatever had happened, once the file goroutines have seen done and the
      callbacks that were executing have returned and said so. */
  lemma StopCompletes(present: seq<bool>, es: seq<Event>)
    ensures var s := Run(Start(present), es);
            var left := Next(DepartAll(Stopped(s), |s.files|), CallbackReturned);
            left.leaving >= 0 && Next(DoneTimes(left, left.leaving), StopReturned).returned
  {
    RunKeeps(present, es);
    var s := Run(Start(present), es);
    StopSets(s);
    AllDepart(Stopped(s), |s.files|);
    var gone := DepartAll(Stopped(s), |s.files|);
    CallbackLeaves(gone);
    LastReturns(Next(gone, CallbackReturned));
  }

  // ---------------------------------------------------------------------------
  // The object
  // ---------------------------------------------------------------------------

  /** The mutable half of the watch; each method is one lock-held region. */
  class FileWatch {
    var stopping: bool
    var pending: bool
    var running: bool
    var made: bool
    var armed: bool

    ghost function View(): Core
      reads this
    {
      Core(stopping, pending, running, made, armed)
    }

    constructor ()
      ensures View() == Start([]).core
    {
      stopping, pending, running, made, armed := false, false, false, false, false;
    }

    method ChangedUnderWatch()
      modifies this
      ensures View() == Changed(old(View()))
    {
      if stopping || pending {
        return;
      }
      pending := true;
      if !made {
        made := true;
        armed := true;
        return;
      }
      armed := true;
    }

    method BeginFire() returns (begins: bool)
      modifies this
      ensures View() == FireBegin(old(View()))
      ensures begins <==> !old(stopping) && !old(running)
    {
      if stopping {
        return false;
      }
      if running {
        pending := true;
        return false;
      }
      pending := false;
      running := true;
      return true;
    }

    method EndFire()
      modifies this
      ensures View() == FireEnd(old(View()))
    {
      running := false;
      if pending && !stopping {
        pending := false;
        armed := true;
      }
    }

    method BeginStop()
      modifies this
      ensures View() == StopBegin(old(View()))
    {
      stopping := true;
      armed := false;
    }
  }
}
