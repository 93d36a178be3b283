/** The per-workload work budget: a counting semaphore with one lazily created broadcast
    channel.  Each lock-held region is one atomic function on `Core`; `System` adds the
    goroutines blocked on a channel and the slots handed out. */
module Budget {
  import opened Common

  /** The empty key means "no workload". */
  type Workload = string

  /** `made` channels have been created, identified by 0..made; `closes` counts the closes
      of each. */
  datatype Core = Core(limits: map<Workload, int>, running: map<Workload, nat>, rejected: map<Workload, nat>,
                       freed: Option<nat>, waiting: int, made: nat, closes: multiset<nat>)

  datatype Verdict = Uncharged | Granted | Refused(limit: int, running: nat, rejected: nat) | Wait(chan: nat)

  function Count(m: map<Workload, nat>, w: Workload): nat { if w in m then m[w] else 0 }

  predicate Bounded(c: Core, w: Workload) { c.limits != map[] && w != "" && w in c.limits }

  predicate Full(c: Core, w: Workload) { w in c.limits && Count(c.running, w) >= c.limits[w] }

  function Take(c: Core, w: Workload): Core {
    c.(running := c.running[w := Count(c.running, w) + 1])
  }

  /** A submission: takes a slot, is refused, or is not bounded at all. */
  function Charge(c: Core, w: Workload): (Core, Verdict) {
    if !Bounded(c, w) then (c, Uncharged)
    else if Full(c, w) then
      var rejected := c.rejected[w := Count(c.rejected, w) + 1];
      (c.(rejected := rejected), Refused(c.limits[w], Count(c.running, w), rejected[w]))
    else (Take(c, w), Granted)
  }

  /** The head of acquire's loop: take a free slot, or register on the wake-up channel. */
  function TakeOrWait(c: Core, w: Workload): (Core, Verdict) {
    if !Full(c, w) then (Take(c, w), Granted)
    else if c.freed.Some? then (c.(waiting := c.waiting + 1), Wait(c.freed.value))
    else (c.(freed := Some(c.made), made := c.made + 1, waiting := c.waiting + 1), Wait(c.made))
  }

  /** acquire up to its first unlock. */
  function Enter(c: Core, w: Workload): (Core, Verdict) {
    if !Bounded(c, w) then (c, Uncharged) else TakeOrWait(c, w)
  }

  /** acquire from the wake-up to its next unlock. */
  function Wake(c: Core, w: Workload): (Core, Verdict) {
    TakeOrWait(c.(waiting := c.waiting - 1), w)
  }

  /** acquire after its context ended. */
  function Cancel(c: Core): Core { c.(waiting := c.waiting - 1) }

  function GiveBack(c: Core, w: Workload): Core {
    if Count(c.running, w) > 1 then c.(running := c.running[w := c.running[w] - 1])
    else c.(running := c.running - {w})
  }

  function Broadcast(c: Core): Core {
    if c.waiting > 0 && c.freed.Some? then c.(closes := c.closes + multiset{c.freed.value}, freed := None) else c
  }

  function Release(c: Core, w: Workload): Core {
    if w == "" then c else Broadcast(GiveBack(c, w))
  }

  // ---------------------------------------------------------------------------
  // Interleavings
  // ---------------------------------------------------------------------------

  datatype Waiter = Waiter(workload: Workload, chan: nat)

  /** `blocked` maps a goroutine to what it waits for, `held` a slot to its workload. */
  datatype System = System(core: Core, blocked: map<nat, Waiter>, held: map<nat, Workload>, issued: nat)

  datatype Event =
    | Charged(workload: Workload)
    | Entered(g: nat, workload: Workload)
    | Woken(g: nat)
    | Cancelled(g: nat)
    | Released(slot: nat)

  function Hand(s: System, core: Core, w: Workload): System {
    s.(core := core, held := s.held[s.issued := w], issued := s.issued + 1)
  }

  function Settle(s: System, g: nat, w: Workload, core: Core, v: Verdict): System {
    match v
    case Granted => Hand(s, core, w)
    case Wait(chan) => s.(core := core, blocked := s.blocked[g := Waiter(w, chan)])
    case _ => s.(core := core)
  }

  /** One lock-held region of some goroutine; an event that cannot happen changes nothing.
      A slot is given back once: later releases of it do nothing. */
  function Next(s: System, e: Event): System {
    match e
    case Charged(w) =>
      var (core, v) := Charge(s.core, w);
      if v.Granted? then Hand(s, core, w) else s.(core := core)
    case Entered(g, w) =>
      if g in s.blocked then s
      else var (core, v) := Enter(s.core, w); Settle(s, g, w, core, v)
    case Woken(g) =>
      if g !in s.blocked || s.core.closes[s.blocked[g].chan] == 0 then s
      else
        var w := s.blocked[g].workload;
        var (core, v) := Wake(s.core, w);
        Settle(s.(blocked := s.blocked - {g}), g, w, core, v)
    case Cancelled(g) =>
      if g !in s.blocked then s else s.(core := Cancel(s.core), blocked := s.blocked - {g})
    case Released(t) =>
      if t !in s.held then s else s.(core := Release(s.core, s.held[t]), held := s.held - {t})
  }

  function Start(limits: map<Workload, int>): System {
    System(Core(limits, map[], map[], None, 0, 0, multiset{}), map[], map[], 0)
  }

  function Run(s: System, es: seq<Event>): System {
    if es == [] then s else Next(Run(s, es[..|es| - 1]), es[|es| - 1])
  }

  // ---------------------------------------------------------------------------
  // What every interleaving keeps
  // ---------------------------------------------------------------------------

  ghost function SlotsOf(held: map<nat, Workload>, w: Workload): set<nat> {
    set t | t in held && held[t] == w
  }

  /** The count is the slots handed out, and stays within the limit. */
  ghost predicate Conserved(s: System) {
    && (forall w :: Count(s.core.running, w) == |SlotsOf(s.held, w)|)
    && (forall t :: t in s.held ==> t < s.issued && Bounded(s.core, s.held[t]))
    && forall w :: w in s.core.limits ==> Count(s.core.running, w) == 0 || Count(s.core.running, w) <= s.core.limits[w]
  }

  /** A workload has an entry only while slots of it are out. */
  ghost predicate NoIdle(c: Core) { forall w :: w in c.running ==> c.running[w] > 0 }

  lemma NoIdleTaken(c: Core, w: Workload)
    requires NoIdle(c)
    ensures NoIdle(Charge(c, w).0) && NoIdle(TakeOrWait(c, w).0) && NoIdle(Release(c, w))
  {}

  lemma NoIdleStep(s: System, e: Event)
    requires NoIdle(s.core)
    ensures NoIdle(Next(s, e).core)
  {
    match e
    case Charged(w) => NoIdleTaken(s.core, w);
    case Entered(_, w) => NoIdleTaken(s.core, w);
    case Woken(g) =>
      if g in s.blocked {
        NoIdleTaken(s.core.(waiting := s.core.waiting - 1), s.blocked[g].workload);
      }
    case Cancelled(_) =>
    case Released(t) =>
      if t in s.held {
        NoIdleTaken(s.core, s.held[t]);
      }
  }

  lemma {:induction false} IdleIsDropped(limits: map<Workload, int>, es: seq<Event>)
    ensures NoIdle(Run(Start(limits), es).core)
  {
    if es != [] {
      IdleIsDropped(limits, es[..|es| - 1]);
      NoIdleStep(Run(Start(limits), es[..|es| - 1]), es[|es| - 1]);
    }
  }

  /** A release that nobody waits for closes nothing. */
  lemma ReleaseInQuiet(limits: map<Workload, int>, es: seq<Event>, t: nat)
    requires Run(Start(limits), es).blocked == map[]
    ensures Next(Run(Start(limits), es), Released(t)).core.closes == Run(Start(limits), es).core.closes
  {
    RunKeeps(limits, es);
  }

  /** A goroutine sleeps on a channel that is closed, or on the one the next release
      closes; the latter only while its workload is full. */
  ghost predicate Wakeable(s: System) {
    && s.core.waiting == |s.blocked|
    && forall g :: g in s.blocked ==> WellParked(s.core, s.blocked[g])
  }

  ghost predicate WellParked(c: Core, x: Waiter) {
    && Bounded(c, x.workload) && x.chan < c.made
    && (c.closes[x.chan] == 0 ==> c.freed == Some(x.chan) && Full(c, x.workload))
  }

  /** No channel is closed twice, and the current one is open. */
  ghost predicate Channels(c: Core) {
    && (forall k :: c.closes[k] <= 1)
    && (forall k :: k in c.closes ==> k < c.made)
    && (c.freed.Some? ==> c.freed.value < c.made && c.closes[c.freed.value] == 0)
  }

  ghost predicate Inv(s: System) { Conserved(s) && Wakeable(s) && Channels(s.core) }

  lemma SlotAdded(held: map<nat, Workload>, t: nat, w: Workload, x: Workload)
    requires t !in held
    ensures |SlotsOf(held[t := w], x)| == |SlotsOf(held, x)| + if x == w then 1 else 0
  {
    if x == w {
      assert SlotsOf(held[t := w], x) == SlotsOf(held, x) + {t};
    } else {
      assert SlotsOf(held[t := w], x) == SlotsOf(held, x);
    }
  }

  lemma SlotRemoved(held: map<nat, Workload>, t: nat, x: Workload)
    requires t in held
    ensures |SlotsOf(held - {t}, x)| == |SlotsOf(held, x)| - if x == held[t] then 1 else 0
  {
    if x == held[t] {
      assert SlotsOf(held, x) == SlotsOf(held - {t}, x) + {t};
    } else {
      assert SlotsOf(held - {t}, x) == SlotsOf(held, x);
    }
  }

  /** Handing a free slot out. */
  lemma HandKeeps(s: System, w: Workload)
    requires Inv(s) && Bounded(s.core, w) && !Full(s.core, w)
    ensures Inv(Hand(s, Take(s.core, w), w))
  {
    var s' := Hand(s, Take(s.core, w), w);
    forall x ensures Count(s'.core.running, x) == |SlotsOf(s'.held, x)| { SlotAdded(s.held, s.issued, w, x); }
    forall g | g in s'.blocked ensures WellParked(s'.core, s'.blocked[g]) { assert WellParked(s.core, s.blocked[g]); }
  }

  /** Registering on the channel disturbs no one who already sleeps. */
  lemma StillParked(c: Core, w: Workload, x: Waiter)
    requires Full(c, w) && WellParked(c, x) && Channels(c)
    ensures WellParked(TakeOrWait(c, w).0, x)
  {
  }

  lemma FreshlyParked(c: Core, w: Workload)
    requires Bounded(c, w) && Full(c, w) && Channels(c)
    ensures var (core, v) := TakeOrWait(c, w);
            v.Wait? && WellParked(core, Waiter(w, v.chan)) && Channels(core)
  {
  }

  function Park(s: System, g: nat, w: Workload): System
    requires Full(s.core, w)
  {
    var (core, v) := TakeOrWait(s.core, w);
    s.(core := core, blocked := s.blocked[g := Waiter(w, v.chan)])
  }

  lemma ParkWakes(s: System, g: nat, w: Workload)
    requires Wakeable(s) && Channels(s.core) && g !in s.blocked && Bounded(s.core, w) && Full(s.core, w)
    ensures Wakeable(Park(s, g, w)) && Channels(Park(s, g, w).core)
  {
    FreshlyParked(s.core, w);
    var s' := Park(s, g, w);
    assert s'.blocked.Keys == s.blocked.Keys + {g};
    forall k | k in s'.blocked ensures WellParked(s'.core, s'.blocked[k]) {
      if k != g { StillParked(s.core, w, s.blocked[k]); }
    }
  }

  lemma ParkConserves(s: System, g: nat, w: Workload)
    requires Conserved(s) && Full(s.core, w)
    ensures Conserved(Park(s, g, w))
  {
    var s' := Park(s, g, w);
    assert s'.core.running == s.core.running && s'.core.limits == s.core.limits && s'.held == s.held;
  }

  /** Parking a goroutine that found its workload full. */
  lemma ParkKeeps(s: System, g: nat, w: Workload)
    requires Inv(s) && g !in s.blocked && Bounded(s.core, w) && Full(s.core, w)
    ensures Inv(Park(s, g, w))
    ensures Settle(s, g, w, TakeOrWait(s.core, w).0, TakeOrWait(s.core, w).1) == Park(s, g, w)
  {
    ParkWakes(s, g, w);
    ParkConserves(s, g, w);
  }

  /** A goroutine leaving the wait, whichever way. */
  lemma LeaveKeeps(s: System, g: nat)
    requires Inv(s) && g in s.blocked
    ensures Inv(s.(core := Cancel(s.core), blocked := s.blocked - {g}))
  {
    assert (s.blocked - {g}).Keys == s.blocked.Keys - {g};
    forall k | k in s.blocked - {g} ensures WellParked(Cancel(s.core), (s.blocked - {g})[k]) {
      assert WellParked(s.core, s.blocked[k]);
    }
  }

  lemma GiveBackConserves(s: System, t: nat)
    requires Conserved(s) && t in s.held
    ensures Conserved(s.(core := GiveBack(s.core, s.held[t]), held := s.held - {t}))
  {
    var w, held := s.held[t], s.held - {t};
    var core := GiveBack(s.core, w);
    assert t in SlotsOf(s.held, w);
    forall x ensures Count(core.running, x) == |SlotsOf(held, x)| { SlotRemoved(s.held, t, x); }
  }

  /** Closing the channel makes every sleeper wakeable, so none can be left behind. */
  lemma GiveBackWakes(s: System, w: Workload, g: nat)
    requires Wakeable(s) && Channels(s.core) && g in s.blocked
    ensures WellParked(Broadcast(GiveBack(s.core, w)), s.blocked[g])
  {
    assert WellParked(s.core, s.blocked[g]);
    assert s.blocked.Keys != {};
  }

  lemma BroadcastConserves(s: System)
    requires Conserved(s)
    ensures Conserved(s.(core := Broadcast(s.core)))
  {
    var s' := s.(core := Broadcast(s.core));
    assert s'.core.running == s.core.running && s'.core.limits == s.core.limits && s'.held == s.held;
  }

  lemma ReleaseWakes(s: System, w: Workload)
    requires Wakeable(s) && Channels(s.core)
    ensures Wakeable(s.(core := Broadcast(GiveBack(s.core, w)))) && Channels(Broadcast(GiveBack(s.core, w)))
  {
    forall g | g in s.blocked
      ensures WellParked(Broadcast(GiveBack(s.core, w)), s.blocked[g]) { GiveBackWakes(s, w, g); }
  }

  /** Giving a slot back wakes everybody who sleeps on the open channel. */
  lemma ReleaseKeeps(s: System, t: nat)
    requires Inv(s) && t in s.held
    ensures Inv(Next(s, Released(t)))
  {
    var w := s.held[t];
    ReleaseWakes(s, w);
    GiveBackConserves(s, t);
    BroadcastConserves(s.(core := GiveBack(s.core, w), held := s.held - {t}));
    assert Bounded(s.core, w);
  }

  lemma EnteredKeeps(s: System, g: nat, w: Workload)
    requires Inv(s) && g !in s.blocked && Bounded(s.core, w)
    ensures var (core, v) := TakeOrWait(s.core, w); Inv(Settle(s, g, w, core, v))
  {
    if Full(s.core, w) { ParkKeeps(s, g, w); } else { HandKeeps(s, w); }
  }

  /** Waking up is leaving the wait and entering again. */
  lemma WokenReenters(s: System, g: nat)
    requires g in s.blocked && s.core.closes[s.blocked[g].chan] > 0
    ensures var w, left := s.blocked[g].workload, s.(core := Cancel(s.core), blocked := s.blocked - {g});
            Next(s, Woken(g)) == Settle(left, g, w, TakeOrWait(left.core, w).0, TakeOrWait(left.core, w).1)
  {
  }

  lemma WokenKeeps(s: System, g: nat)
    requires Inv(s) && g in s.blocked && s.core.closes[s.blocked[g].chan] > 0
    ensures Inv(Next(s, Woken(g)))
  {
    assert Bounded(s.core, s.blocked[g].workload) by { assert WellParked(s.core, s.blocked[g]); }
    WokenReenters(s, g);
    var w, left := s.blocked[g].workload, s.(core := Cancel(s.core), blocked := s.blocked - {g});
    assert Inv(left) by { LeaveKeeps(s, g); }
    EnteredKeeps(left, g, w);
  }

  lemma ChargedKeeps(s: System, w: Workload)
    requires Inv(s)
    ensures Inv(Next(s, Charged(w)))
  {
    if Bounded(s.core, w) && !Full(s.core, w) {
      HandKeeps(s, w);
    } else {
      var core := Charge(s.core, w).0;
      forall g | g in s.blocked ensures WellParked(core, s.blocked[g]) { assert WellParked(s.core, s.blocked[g]); }
    }
  }

  lemma NextKeeps(s: System, e: Event)
    requires Inv(s)
    ensures Inv(Next(s, e))
  {
    match e
    case Charged(w) => ChargedKeeps(s, w);
    case Entered(g, w) => if g !in s.blocked && Bounded(s.core, w) { EnteredKeeps(s, g, w); }
    case Woken(g) => if g in s.blocked && s.core.closes[s.blocked[g].chan] > 0 { WokenKeeps(s, g); }
    case Cancelled(g) => if g in s.blocked { LeaveKeeps(s, g); }
    case Released(t) => if t in s.held { ReleaseKeeps(s, t); }
  }

  lemma LimitsFixed(s: System, e: Event)
    ensures Next(s, e).core.limits == s.core.limits
  {
    match e
    case Woken(g) => if g in s.blocked && s.core.closes[s.blocked[g].chan] > 0 { WokenReenters(s, g); }
    case _ =>
  }

  lemma SlotsFresh(s: System, e: Event)
    ensures s.issued <= Next(s, e).issued
    ensures Next(s, e).held.Keys <= s.held.Keys + {s.issued}
  {
  }

  lemma StartHolds(limits: map<Workload, int>)
    ensures Inv(Start(limits))
  {
    forall w ensures |SlotsOf(map[], w)| == 0 { assert SlotsOf(map[], w) == {}; }
  }

  lemma {:induction false} RunKeeps(limits: map<Workload, int>, es: seq<Event>)
    ensures Inv(Run(Start(limits), es)) && Run(Start(limits), es).core.limits == limits
  {
    if es == [] {
      StartHolds(limits);
    } else {
      var before := Run(Start(limits), es[..|es| - 1]);
      RunKeeps(limits, es[..|es| - 1]);
      LimitsFixed(before, es[|es| - 1]);
      NextKeeps(before, es[|es| - 1]);
    }
  }

  /** No lost wake-up: however the goroutines interleave, one that sleeps while its
      workload has room sleeps on a channel that is already closed, and one that sleeps on
      an open channel sleeps on the one the next release closes. */
  lemma NoLostWakeup(limits: map<Workload, int>, es: seq<Event>, g: nat)
    requires g in Run(Start(limits), es).blocked
    ensures var s := Run(Start(limits), es);
            var x := s.blocked[g];
            && x.workload in limits
            && (Count(s.core.running, x.workload) < limits[x.workload] ==> s.core.closes[x.chan] == 1)
            && (s.core.closes[x.chan] == 0 ==> s.core.freed == Some(x.chan) && s.core.waiting > 0)
  {
    RunKeeps(limits, es);
    var s := Run(Start(limits), es);
    assert WellParked(s.core, s.blocked[g]);
    assert s.blocked.Keys != {};
  }

  /** So after any release, every sleeper can be woken. */
  lemma ReleaseWakesAll(limits: map<Workload, int>, es: seq<Event>, t: nat, g: nat)
    requires t in Run(Start(limits), es).held && g in Run(Start(limits), es).blocked
    ensures var s := Run(Start(limits), es + [Released(t)]);
            g in s.blocked && s.core.closes[s.blocked[g].chan] == 1
  {
    RunKeeps(limits, es);
    assert (es + [Released(t)])[..|es|] == es;
    NoLostWakeup(limits, es, g);
  }

  /** Slot conservation: the running count of a workload is the slots handed out for it and
      not yet given back, and never exceeds its limit. */
  lemma SlotsConserved(limits: map<Workload, int>, es: seq<Event>, w: Workload)
    ensures var s := Run(Start(limits), es);
            && Count(s.core.running, w) == |SlotsOf(s.held, w)|
            && (w in limits && limits[w] >= 0 ==> Count(s.core.running, w) <= limits[w])
            && (w !in limits ==> Count(s.core.running, w) == 0)
  {
    RunKeeps(limits, es);
    var s := Run(Start(limits), es);
    if w !in limits { assert SlotsOf(s.held, w) == {}; }
  }

  /** w is limited and all its slots are out. */
  ghost predicate NoRoom(limits: map<Workload, int>, held: map<nat, Workload>, w: Workload) {
    w != "" && w in limits && |SlotsOf(held, w)| >= limits[w]
  }

  /** A submission is refused exactly when all slots of its workload are out, and otherwise
      gets one exactly when the workload is limited; the refusal names limit and slots. */
  lemma ChargedExactly(limits: map<Workload, int>, es: seq<Event>, w: Workload)
    ensures var s := Run(Start(limits), es);
            var v := Charge(s.core, w).1;
            && (v.Refused? <==> NoRoom(limits, s.held, w))
            && (v.Granted? <==> w != "" && w in limits && !NoRoom(limits, s.held, w))
            && (v.Refused? ==> v.limit == limits[w] && v.running == |SlotsOf(s.held, w)|)
            && (Next(s, Charged(w)).held == if v.Granted? then s.held[s.issued := w] else s.held)
  {
    RunKeeps(limits, es);
    SlotsConserved(limits, es, w);
  }

  /** An acquire outside any limit passes; within one it takes a slot at once while there is
      room, and otherwise sleeps. */
  lemma EnteredExactly(limits: map<Workload, int>, es: seq<Event>, g: nat, w: Workload)
    requires g !in Run(Start(limits), es).blocked
    ensures var s := Run(Start(limits), es);
            var t := Next(s, Entered(g, w));
            && (g in t.blocked <==> NoRoom(limits, s.held, w))
            && t.held == (if w != "" && w in limits && !NoRoom(limits, s.held, w) then s.held[s.issued := w]
                          else s.held)
  {
    RunKeeps(limits, es);
    SlotsConserved(limits, es, w);
  }

  /** A sleeper whose channel is closed takes a slot if there is room by then, and sleeps on
      otherwise. */
  lemma WokenExactly(limits: map<Workload, int>, es: seq<Event>, g: nat)
    requires g in Run(Start(limits), es).blocked
    ensures var s := Run(Start(limits), es);
            var w, t := s.blocked[g].workload, Next(s, Woken(g));
            s.core.closes[s.blocked[g].chan] > 0 ==>
              && (g in t.blocked <==> |SlotsOf(s.held, w)| >= (if w in limits then limits[w] else 0))
              && (t.held == if g in t.blocked then s.held else s.held[s.issued := w])
  {
    RunKeeps(limits, es);
    NoLostWakeup(limits, es, g);
    SlotsConserved(limits, es, Run(Start(limits), es).blocked[g].workload);
  }

  /** Giving a slot back a second time changes nothing, whatever happened in between. */
  lemma ReleaseIsIdempotent(limits: map<Workload, int>, before: seq<Event>, t: nat, between: seq<Event>)
    requires t in Run(Start(limits), before).held
    ensures var s := Run(Start(limits), before + [Released(t)] + between);
            Next(s, Released(t)) == s
  {
    var given := before + [Released(t)];
    RunKeeps(limits, before);
    assert given[..|before|] == before;
    StaysGiven(limits, given, t, between);
  }

  lemma {:induction false} StaysGiven(limits: map<Workload, int>, given: seq<Event>, t: nat, between: seq<Event>)
    requires t !in Run(Start(limits), given).held && t < Run(Start(limits), given).issued
    ensures var s := Run(Start(limits), given + between);
            t !in s.held && t < s.issued
  {
    if between == [] {
      assert given + between == given;
    } else {
      StaysGiven(limits, given, t, between[..|between| - 1]);
      assert (given + between)[..|given + between| - 1] == given + between[..|between| - 1];
      SlotsFresh(Run(Start(limits), given + between[..|between| - 1]), between[|between| - 1]);
    }
  }

  // ---------------------------------------------------------------------------
  // The object
  // ---------------------------------------------------------------------------

  /** The budget as the runtime holds it; every method is one lock-held region. */
  class WorkloadBudget {
    var limits: map<Workload, int>
    var running: map<Workload, nat>
    var rejected: map<Workload, nat>
    var freed: Option<nat>
    var waiting: int
    var made: nat
    var closes: multiset<nat>

    ghost function View(): Core
      reads this
    {
      Core(limits, running, rejected, freed, waiting, made, closes)
    }

    constructor (limits: map<Workload, int>)
      ensures View() == Start(limits).core
    {
      this.limits := limits;
      running, rejected, freed, waiting, made, closes := map[], map[], None, 0, 0, multiset{};
    }

    method ChargeOne(w: Workload) returns (v: Verdict)
      modifies this
      ensures (View(), v) == Charge(old(View()), w)
    {
      if limits == map[] || w == "" || w !in limits {
        return Uncharged;
      }
      var limit, now := limits[w], Count(running, w);
      if now >= limit {
        rejected := rejected[w := Count(rejected, w) + 1];
        return Refused(limit, now, rejected[w]);
      }
      running := running[w := now + 1];
      v := Granted;
    }

    /** acquire from taking the lock to granting or unlocking; `woken` on re-entry. */
    method AcquireRegion(w: Workload, woken: bool) returns (v: Verdict)
      requires woken ==> Bounded(View(), w)
      modifies this
      ensures (View(), v) == if woken then Wake(old(View()), w) else Enter(old(View()), w)
    {
      if woken {
        waiting := waiting - 1;
      } else if limits == map[] || w == "" || w !in limits {
        return Uncharged;
      }
      if Count(running, w) >= limits[w] {
        var chan;
        if freed.None? {
          chan := made;
          made := made + 1;
          freed := Some(chan);
        } else {
          chan := freed.value;
        }
        waiting := waiting + 1;
        return Wait(chan);
      }
      running := running[w := Count(running, w) + 1];
      v := Granted;
    }

    method CancelRegion()
      modifies this
      ensures View() == Cancel(old(View()))
    {
      waiting := waiting - 1;
    }

    method ReleaseOne(w: Workload)
      modifies this
      ensures View() == Release(old(View()), w)
    {
      if w == "" {
        return;
      }
      var now := Count(running, w);
      if now > 1 {
        running := running[w := now - 1];
      } else {
        running := running - {w};
      }
      if waiting > 0 && freed.Some? {
        closes := closes + multiset{freed.value};
        freed := None;
      }
    }
  }
}
