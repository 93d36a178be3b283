/** Construction of the plugin graph: factories run once each in frozen graph order, a value
    is owned before its Init, and the set of instances that must stop before anything else
    is the upward closure of the ones that open traffic. */
module Assembly {
  import opened Common

  /** A normalised plugin identity. */
  datatype Identity = Identity(plugin: string, instance: string)

  type Value = nat

  /** One planned instance: the producers bound to each input token. */
  datatype Planned = Planned(bindings: map<nat, seq<Identity>>, opensTraffic: bool, hasStop: bool, hasDrain: bool)

  datatype Instance = Instance(id: Identity, value: Value, dependsOn: seq<Identity>,
                               opensTraffic: bool, hasStop: bool, hasDrain: bool)

  /** What a consumer's slot holds for one producer. */
  datatype Entry = Entry(producer: Identity, value: Value)

  /** What the plugin's own code does when asked. */
  datatype Behaviour = Makes(value: Value, initFails: bool) | FactoryFails | MakesNil | Mistyped

  datatype Fault = MissingProducer | BadFactory | InitFailed

  /** `factories` and `inits` record the calls in order; `given` the slots each factory saw. */
  datatype Built = Built(owned: seq<Instance>, factories: seq<Identity>, inits: seq<Identity>,
                         given: seq<map<nat, seq<Entry>>>, fault: Option<Fault>)

  // ---------------------------------------------------------------------------
  // Specification
  // ---------------------------------------------------------------------------

  predicate Owns(owned: seq<Instance>, id: Identity, value: Value) {
    exists i :: 0 <= i < |owned| && owned[i].id == id && owned[i].value == value
  }

  predicate HasOwned(owned: seq<Instance>, id: Identity) {
    exists i :: 0 <= i < |owned| && owned[i].id == id
  }

  /** id is one of the producers bound in p. */
  ghost predicate Needs(p: Planned, id: Identity) {
    exists t, i :: t in p.bindings && 0 <= i < |p.bindings[t]| && p.bindings[t][i] == id
  }

  /** Every producer precedes its consumers, and no identity occurs twice. */
  ghost predicate Layered(owned: seq<Instance>) {
    && (forall i, d :: 0 <= i < |owned| && d in owned[i].dependsOn ==> HasOwned(owned[..i], d))
    && (forall i, j :: 0 <= i < j < |owned| ==> owned[i].id != owned[j].id)
  }

  /** The slots hold, token by token, the producers in binding order with their own values. */
  ghost predicate SlotsFrom(slots: map<nat, seq<Entry>>, p: Planned, owned: seq<Instance>) {
    && slots.Keys == p.bindings.Keys
    && forall t :: t in slots ==> EntriesFrom(slots[t], p.bindings[t], owned)
  }

  ghost predicate EntriesFrom(entries: seq<Entry>, producers: seq<Identity>, owned: seq<Instance>) {
    && |entries| == |producers|
    && forall i :: 0 <= i < |entries| ==>
         entries[i].producer == producers[i] && Owns(owned, producers[i], entries[i].value)
  }

  ghost predicate Distinct(ids: seq<Identity>) {
    forall i, j :: 0 <= i < j < |ids| ==> ids[i] != ids[j]
  }

  /** The plan's own promise about its order: producers come first. */
  ghost predicate ProducersFirst(order: seq<Identity>, plan: map<Identity, Planned>) {
    forall i, d :: 0 <= i < |order| && order[i] in plan && Needs(plan[order[i]], d) ==> d in order[..i]
  }

  // ---------------------------------------------------------------------------
  // directDependencies and materializeSlots
  // ---------------------------------------------------------------------------

  /** Adds the producers of one token that are not there yet. */
  method AddProducers(producers: seq<Identity>, soFar: seq<Identity>) returns (dependencies: seq<Identity>)
    requires Distinct(soFar)
    ensures Distinct(dependencies)
    ensures forall d :: d in dependencies <==> d in soFar || d in producers
  {
    dependencies := soFar;
    for i := 0 to |producers|
      invariant Distinct(dependencies)
      invariant forall d :: d in dependencies <==> d in soFar || d in producers[..i]
    {
      if producers[i] !in dependencies {
        dependencies := dependencies + [producers[i]];
      }
      assert producers[..i + 1] == producers[..i] + [producers[i]];
    }
    assert producers[..|producers|] == producers;
  }

  method DirectDependencies(p: Planned) returns (dependencies: seq<Identity>)
    ensures Distinct(dependencies)
    ensures forall d :: d in dependencies <==> Needs(p, d)
  {
    dependencies := [];
    var left := p.bindings.Keys;
    while left != {}
      invariant left <= p.bindings.Keys && Distinct(dependencies)
      invariant forall d :: d in dependencies <==> (exists t :: t in p.bindings && t !in left && d in p.bindings[t])
      decreases |left|
    {
      var t :| t in left;
      dependencies := AddProducers(p.bindings[t], dependencies);
      left := left - {t};
    }
  }

  method Lookup(id: Identity, owned: seq<Instance>) returns (found: Option<Value>)
    ensures found.None? <==> !HasOwned(owned, id)
    ensures found.Some? ==> Owns(owned, id, found.value)
  {
    for i := 0 to |owned|
      invariant !HasOwned(owned[..i], id)
    {
      if owned[i].id == id {
        return Some(owned[i].value);
      }
      assert owned[..i + 1] == owned[..i] + [owned[i]];
    }
    assert owned[..|owned|] == owned;
    return None;
  }

  method Entries(producers: seq<Identity>, owned: seq<Instance>) returns (entries: Option<seq<Entry>>)
    ensures entries.Some? <==> forall i :: 0 <= i < |producers| ==> HasOwned(owned, producers[i])
    ensures entries.Some? ==> EntriesFrom(entries.value, producers, owned)
  {
    var made: seq<Entry> := [];
    for i := 0 to |producers|
      invariant forall k :: 0 <= k < i ==> HasOwned(owned, producers[k])
      invariant EntriesFrom(made, producers[..i], owned)
    {
      var found := Lookup(producers[i], owned);
      if found.None? {
        return None;
      }
      made := made + [Entry(producers[i], found.value)];
    }
    assert producers[..|producers|] == producers;
    return Some(made);
  }

  /** A consumer's slots exist exactly when every producer is owned, and then carry the
      producers' own values in binding order. */
  method MaterializeSlots(p: Planned, owned: seq<Instance>) returns (slots: Option<map<nat, seq<Entry>>>)
    ensures slots.Some? <==> forall d :: Needs(p, d) ==> HasOwned(owned, d)
    ensures slots.Some? ==> SlotsFrom(slots.value, p, owned)
  {
    var made: map<nat, seq<Entry>> := map[];
    var left := p.bindings.Keys;
    while left != {}
      invariant left <= p.bindings.Keys && made.Keys == p.bindings.Keys - left
      invariant forall t :: t in made ==> EntriesFrom(made[t], p.bindings[t], owned)
      decreases |left|
    {
      var t :| t in left;
      var entries := Entries(p.bindings[t], owned);
      if entries.None? {
        var i :| 0 <= i < |p.bindings[t]| && !HasOwned(owned, p.bindings[t][i]);
        assert Needs(p, p.bindings[t][i]);
        return None;
      }
      made := made[t := entries.value];
      left := left - {t};
    }
    NeedsFilled(p, made, owned);
    return Some(made);
  }

  lemma NeedsFilled(p: Planned, slots: map<nat, seq<Entry>>, owned: seq<Instance>)
    requires SlotsFrom(slots, p, owned)
    ensures forall d :: Needs(p, d) ==> HasOwned(owned, d)
  {
    forall d | Needs(p, d) ensures HasOwned(owned, d) {
      var t, i :| t in p.bindings && 0 <= i < |p.bindings[t]| && p.bindings[t][i] == d;
      assert EntriesFrom(slots[t], p.bindings[t], owned);
      assert Owns(owned, d, slots[t][i].value);
    }
  }

  // ---------------------------------------------------------------------------
  // Construct
  // ---------------------------------------------------------------------------

  ghost predicate Fine(order: seq<Identity>, does: map<Identity, Behaviour>) {
    forall i :: 0 <= i < |order| && order[i] in does ==> does[order[i]].Makes? && !does[order[i]].initFails
  }

  /** The instance built for id. */
  ghost predicate Made(x: Instance, id: Identity, p: Planned, b: Behaviour) {
    && x.id == id && b == Makes(x.value, b.Makes? && b.initFails)
    && x.opensTraffic == p.opensTraffic && x.hasStop == p.hasStop && x.hasDrain == p.hasDrain
    && (forall d :: d in x.dependsOn <==> Needs(p, d))
  }

  /** k instances are owned; all but possibly the last are initialised. */
  ghost predicate Progress(b: Built, order: seq<Identity>, plan: map<Identity, Planned>, does: map<Identity, Behaviour>)
  {
    && |b.owned| <= |order| && |b.given| == |b.factories|
    && (forall i :: 0 <= i < |b.owned| ==> order[i] in plan && order[i] in does
                                            && Made(b.owned[i], order[i], plan[order[i]], does[order[i]]))
    && (forall i :: 0 <= i < |b.owned| && i < |b.given| && order[i] in plan ==>
          SlotsFrom(b.given[i], plan[order[i]], b.owned[..i]))
    && Layered(b.owned)
  }

  /** The calls made so far, in order: a factory may have run without leaving a value. */
  ghost predicate InOrder(b: Built, order: seq<Identity>) {
    && b.factories <= order && |b.owned| <= |b.factories| <= |b.owned| + 1
    && b.inits == b.factories[..|b.owned|]
  }

  /** The first |owned| identities were built without a fault. */
  ghost predicate Ongoing(b: Built, order: seq<Identity>, plan: map<Identity, Planned>, does: map<Identity, Behaviour>)
  {
    && Progress(b, order, plan, does) && InOrder(b, order) && b.fault.None? && |b.factories| == |b.owned|
    && ProducersFirst(order[..|b.owned|], plan) && Fine(order[..|b.owned|], does)
  }

  /** The next identity could not be built. */
  ghost predicate Broken(b: Built, order: seq<Identity>, plan: map<Identity, Planned>, does: map<Identity, Behaviour>) {
    && Progress(b, order, plan, does) && InOrder(b, order) && b.fault.Some?
    && !(ProducersFirst(order, plan) && Fine(order, does))
    && (b.fault == Some(InitFailed) <==>
          |b.inits| > 0 && b.inits[|b.inits| - 1] in does && Spoils(does[b.inits[|b.inits| - 1]]))
  }

  predicate Spoils(b: Behaviour) { b.Makes? && b.initFails }

  lemma LastIsFine(b: Built, order: seq<Identity>, plan: map<Identity, Planned>, does: map<Identity, Behaviour>)
    requires Ongoing(b, order, plan, does)
    ensures |b.inits| > 0 && b.inits[|b.inits| - 1] in does ==> !Spoils(does[b.inits[|b.inits| - 1]])
  {
    if |b.inits| > 0 {
      assert b.inits[|b.inits| - 1] == order[..|b.owned|][|b.owned| - 1];
    }
  }

  /** First exit: a producer is missing. */
  lemma BreaksMissing(b: Built, order: seq<Identity>, plan: map<Identity, Planned>, does: map<Identity, Behaviour>)
    requires Ongoing(b, order, plan, does) && |b.owned| < |order| && order[|b.owned|] in plan
    requires !forall d :: Needs(plan[order[|b.owned|]], d) ==> HasOwned(b.owned, d)
    ensures Broken(b.(fault := Some(MissingProducer)), order, plan, does)
  {
    LastIsFine(b, order, plan, does);
    MissingBreaksOrder(b, order, plan, does);
  }

  /** The factory call is recorded. */
  function Called(b: Built, id: Identity, slots: map<nat, seq<Entry>>): Built {
    b.(factories := b.factories + [id], given := b.given + [slots])
  }

  lemma CalledInOrder(b: Built, order: seq<Identity>, slots: map<nat, seq<Entry>>)
    requires InOrder(b, order) && |b.factories| == |b.owned| < |order|
    ensures InOrder(Called(b, order[|b.owned|], slots), order)
  {
    assert b.factories + [order[|b.owned|]] == order[..|b.owned| + 1];
  }

  lemma CalledProgress(b: Built, order: seq<Identity>, plan: map<Identity, Planned>, does: map<Identity, Behaviour>,
                       slots: map<nat, seq<Entry>>)
    requires Progress(b, order, plan, does) && |b.factories| == |b.owned| < |order|
    ensures Progress(Called(b, order[|b.owned|], slots), order, plan, does)
  {
    var called := Called(b, order[|b.owned|], slots);
    forall i | 0 <= i < |called.owned| && i < |called.given| && order[i] in plan
      ensures SlotsFrom(called.given[i], plan[order[i]], called.owned[..i])
    {
      assert called.given[i] == b.given[i];
    }
  }

  /** Second exit: the factory leaves no value. */
  lemma BreaksFactory(b: Built, order: seq<Identity>, plan: map<Identity, Planned>, does: map<Identity, Behaviour>,
                      slots: map<nat, seq<Entry>>)
    requires Ongoing(b, order, plan, does) && |b.owned| < |order|
    requires order[|b.owned|] in does && !does[order[|b.owned|]].Makes?
    ensures Broken(Called(b, order[|b.owned|], slots).(fault := Some(BadFactory)), order, plan, does)
  {
    LastIsFine(b, order, plan, does);
    CalledInOrder(b, order, slots);
    CalledProgress(b, order, plan, does, slots);
    assert !Fine(order, does);
  }

  /** The value is owned and Init was called. */
  function Initialised(b: Built, x: Instance, slots: map<nat, seq<Entry>>): Built {
    Called(b, x.id, slots).(owned := b.owned + [x], inits := b.inits + [x.id])
  }

  lemma InitialisedInOrder(b: Built, order: seq<Identity>, x: Instance, slots: map<nat, seq<Entry>>)
    requires InOrder(b, order) && |b.factories| == |b.owned| < |order| && x.id == order[|b.owned|]
    ensures InOrder(Initialised(b, x, slots), order)
  {
    CalledInOrder(b, order, slots);
    assert b.factories[..|b.owned|] == b.factories;
    assert (b.factories + [x.id])[..|b.owned| + 1] == b.factories + [x.id];
  }

  /** Third exit: Init fails, and the value stays owned. */
  lemma BreaksInit(b: Built, order: seq<Identity>, plan: map<Identity, Planned>, does: map<Identity, Behaviour>,
                   x: Instance, slots: map<nat, seq<Entry>>)
    requires Ongoing(b, order, plan, does) && |b.owned| < |order|
    requires x.id == order[|b.owned|] && x.id in does && Spoils(does[x.id])
    requires Progress(Initialised(b, x, slots), order, plan, does)
    ensures Broken(Initialised(b, x, slots).(fault := Some(InitFailed)), order, plan, does)
  {
    InitialisedInOrder(b, order, x, slots);
    assert !Fine(order, does);
    var next := Initialised(b, x, slots);
    assert next.inits[|next.inits| - 1] == x.id;
  }

  /** No exit: one more instance is built. */
  lemma GoesOn(b: Built, order: seq<Identity>, plan: map<Identity, Planned>, does: map<Identity, Behaviour>,
               x: Instance, slots: map<nat, seq<Entry>>)
    requires Ongoing(b, order, plan, does) && |b.owned| < |order| && x.id == order[|b.owned|]
    requires x.id in does ==> does[x.id].Makes? && !does[x.id].initFails
    requires Progress(Initialised(b, x, slots), order, plan, does)
    requires ProducersFirst(order[..|b.owned| + 1], plan)
    ensures Ongoing(Initialised(b, x, slots), order, plan, does)
  {
    InitialisedInOrder(b, order, x, slots);
    FineExtends(order, does, |b.owned|);
  }

  lemma FineExtends(order: seq<Identity>, does: map<Identity, Behaviour>, n: nat)
    requires n < |order| && Fine(order[..n], does)
    requires order[n] in does ==> does[order[n]].Makes? && !does[order[n]].initFails
    ensures Fine(order[..n + 1], does)
  {
    var longer := order[..n + 1];
    forall i | 0 <= i < |longer| && longer[i] in does ensures does[longer[i]].Makes? && !does[longer[i]].initFails {
      if i < n {
        assert order[..n][i] == longer[i];
      }
    }
  }

  method ConstructOne(b: Built, order: seq<Identity>, plan: map<Identity, Planned>, does: map<Identity, Behaviour>)
    returns (next: Built)
    requires Distinct(order)
    requires forall i :: 0 <= i < |order| ==> order[i] in plan && order[i] in does
    requires Ongoing(b, order, plan, does) && |b.owned| < |order|
    ensures next.fault.None? ==> Ongoing(next, order, plan, does) && |next.owned| == |b.owned| + 1
    ensures next.fault.Some? ==> Broken(next, order, plan, does)
  {
    var id := order[|b.owned|];
    var p, behaviour := plan[id], does[id];
    var slots := MaterializeSlots(p, b.owned);
    if slots.None? {
      BreaksMissing(b, order, plan, does);
      return b.(fault := Some(MissingProducer));
    }
    if !behaviour.Makes? {
      BreaksFactory(b, order, plan, does, slots.value);
      return Called(b, id, slots.value).(fault := Some(BadFactory));
    }
    var dependencies := DirectDependencies(p);
    var instance := Instance(id, behaviour.value, dependencies, p.opensTraffic, p.hasStop, p.hasDrain);
    next := Initialised(b, instance, slots.value);
    Owned(b, instance, slots.value, order, plan, does);
    if behaviour.initFails {
      BreaksInit(b, order, plan, does, instance, slots.value);
      return next.(fault := Some(InitFailed));
    }
    ExtendsOrder(b, order, plan, does);
    GoesOn(b, order, plan, does, instance, slots.value);
  }

  /** Construction succeeds exactly when producers come first and every factory and Init
      does; each factory is called at most once, in order, with slots that hold the values
      its producers' factories made; a value is owned from the moment its factory returned,
      Init or no Init; and whatever is owned at the end, success or not, is layered. */
  method Construct(order: seq<Identity>, plan: map<Identity, Planned>, does: map<Identity, Behaviour>)
    returns (b: Built)
    requires Distinct(order)
    requires forall i :: 0 <= i < |order| ==> order[i] in plan && order[i] in does
    ensures Progress(b, order, plan, does) && InOrder(b, order)
    ensures b.fault.None? <==> ProducersFirst(order, plan) && Fine(order, does)
    ensures b.fault.None? ==> b.inits == order
    ensures b.fault.Some? ==> Broken(b, order, plan, does)
  {
    b := Built([], [], [], [], None);
    while |b.owned| < |order|
      invariant Ongoing(b, order, plan, does)
    {
      b := ConstructOne(b, order, plan, does);
      if b.fault.Some? {
        return;
      }
    }
    assert order[..|b.owned|] == order;
  }

  lemma OwnedAreOrder(b: Built, order: seq<Identity>, plan: map<Identity, Planned>, does: map<Identity, Behaviour>)
    requires Progress(b, order, plan, does)
    ensures forall d :: HasOwned(b.owned, d) <==> d in order[..|b.owned|]
  {
    forall d | d in order[..|b.owned|] ensures HasOwned(b.owned, d) {
      var i :| 0 <= i < |b.owned| && order[i] == d;
      assert b.owned[i].id == d;
    }
  }

  lemma MissingBreaksOrder(b: Built, order: seq<Identity>, plan: map<Identity, Planned>, does: map<Identity, Behaviour>)
    requires Progress(b, order, plan, does) && |b.owned| < |order| && order[|b.owned|] in plan
    requires !forall d :: Needs(plan[order[|b.owned|]], d) ==> HasOwned(b.owned, d)
    ensures !ProducersFirst(order, plan)
  {
    OwnedAreOrder(b, order, plan, does);
  }

  lemma ExtendsOrder(b: Built, order: seq<Identity>, plan: map<Identity, Planned>, does: map<Identity, Behaviour>)
    requires Progress(b, order, plan, does) && |b.owned| < |order| && order[|b.owned|] in plan
    requires forall d :: Needs(plan[order[|b.owned|]], d) ==> HasOwned(b.owned, d)
    requires ProducersFirst(order[..|b.owned|], plan)
    ensures ProducersFirst(order[..|b.owned| + 1], plan)
  {
    OwnedAreOrder(b, order, plan, does);
    var n := |b.owned|;
    var longer := order[..n + 1];
    forall i, d | 0 <= i < |longer| && longer[i] in plan && Needs(plan[longer[i]], d) ensures d in longer[..i] {
      assert longer[..i] == order[..i];
      if i < n {
        assert order[..n][i] == order[i] && order[..n][..i] == order[..i];
      }
    }
  }

  lemma LayerOneMore(owned: seq<Instance>, x: Instance)
    requires Layered(owned)
    requires forall d :: d in x.dependsOn ==> HasOwned(owned, d)
    requires forall i :: 0 <= i < |owned| ==> owned[i].id != x.id
    ensures Layered(owned + [x])
  {
    var all := owned + [x];
    forall i, d | 0 <= i < |all| && d in all[i].dependsOn ensures HasOwned(all[..i], d) {
      assert all[..i] == owned[..i];
      if i == |owned| {
        assert owned[..i] == owned;
      }
    }
  }

  lemma Owned(b: Built, x: Instance, slots: map<nat, seq<Entry>>, order: seq<Identity>, plan: map<Identity, Planned>,
              does: map<Identity, Behaviour>)
    requires Progress(b, order, plan, does) && Distinct(order)
    requires |b.owned| < |order| && |b.factories| == |b.owned|
    requires order[|b.owned|] in plan && order[|b.owned|] in does
    requires Made(x, order[|b.owned|], plan[order[|b.owned|]], does[order[|b.owned|]])
    requires SlotsFrom(slots, plan[order[|b.owned|]], b.owned)
    ensures Progress(Initialised(b, x, slots), order, plan, does)
  {
    NeedsFilled(plan[order[|b.owned|]], slots, b.owned);
    LayerOneMore(b.owned, x);
    var all, given := b.owned + [x], b.given + [slots];
    forall i | 0 <= i < |all| && i < |given| && order[i] in plan
      ensures SlotsFrom(given[i], plan[order[i]], all[..i])
    {
      assert all[..i] == b.owned[..i];
      if i == |b.owned| {
        assert b.owned[..i] == b.owned;
      }
    }
  }

  // ---------------------------------------------------------------------------
  // The ingress closure
  // ---------------------------------------------------------------------------

  /** s holds every instance that opens traffic and every dependent of a member. */
  ghost predicate Closed(c: seq<Instance>, s: set<Identity>) {
    forall i :: 0 <= i < |c| ==> Respects(c[i], s)
  }

  ghost predicate Respects(x: Instance, s: set<Identity>) {
    (x.opensTraffic ==> x.id in s) && (forall d :: d in x.dependsOn && d in s ==> x.id in s)
  }

  /** s is below every closed set. */
  ghost predicate Least(c: seq<Instance>, s: set<Identity>) {
    forall t: set<Identity> :: Closed(c, t) ==> s <= t
  }

  /** dep is a dependency of the instance id. */
  predicate DependsOn(c: seq<Instance>, id: Identity, dep: Identity) {
    exists i :: 0 <= i < |c| && c[i].id == id && dep in c[i].dependsOn
  }

  method Openers(c: seq<Instance>) returns (ingress: set<Identity>)
    ensures forall id :: id in ingress <==> exists i :: 0 <= i < |c| && c[i].opensTraffic && c[i].id == id
  {
    ingress := {};
    for i := 0 to |c|
      invariant forall id :: id in ingress <==> exists k :: 0 <= k < i && c[k].opensTraffic && c[k].id == id
    {
      if c[i].opensTraffic {
        ingress := ingress + {c[i].id};
      }
    }
  }

  predicate Lists(dependents: map<Identity, seq<Identity>>, dep: Identity, id: Identity) {
    dep in dependents && id in dependents[dep]
  }

  /** Inverts one instance's edges. */
  method Invert(x: Instance, given: map<Identity, seq<Identity>>) returns (dependents: map<Identity, seq<Identity>>)
    ensures forall dep, id :: Lists(dependents, dep, id) <==>
                        Lists(given, dep, id) || (id == x.id && dep in x.dependsOn)
  {
    dependents := given;
    for k := 0 to |x.dependsOn|
      invariant forall dep, id :: Lists(dependents, dep, id) <==>
                        Lists(given, dep, id) || (id == x.id && dep in x.dependsOn[..k])
    {
      var dep := x.dependsOn[k];
      dependents := dependents[dep := (if dep in dependents then dependents[dep] else []) + [x.id]];
      assert x.dependsOn[..k + 1] == x.dependsOn[..k] + [dep];
    }
    assert x.dependsOn[..|x.dependsOn|] == x.dependsOn;
  }

  method Dependents(c: seq<Instance>) returns (dependents: map<Identity, seq<Identity>>)
    ensures forall dep, id :: Lists(dependents, dep, id) <==> DependsOn(c, id, dep)
  {
    dependents := map[];
    for i := 0 to |c|
      invariant forall dep, id :: Lists(dependents, dep, id) <==> DependsOn(c[..i], id, dep)
    {
      dependents := Invert(c[i], dependents);
      assert c[..i + 1] == c[..i] + [c[i]];
    }
    assert c[..|c|] == c;
  }

  ghost function Ids(c: seq<Instance>): set<Identity> {
    set i | 0 <= i < |c| :: c[i].id
  }

  /** Every member is queued or has all its dependents inside. */
  ghost predicate Expanded(dependents: map<Identity, seq<Identity>>, s: set<Identity>, queue: seq<Identity>) {
    forall dep, id :: dep in s && dep !in queue && Lists(dependents, dep, id) ==> id in s
  }

  /** A queue holding the set, in any order. */
  method Enqueue(s: set<Identity>) returns (queue: seq<Identity>)
    ensures forall id :: id in queue <==> id in s
  {
    queue := [];
    var left := s;
    while left != {}
      invariant left <= s && forall id :: id in queue <==> id in s - left
      decreases |left|
    {
      var id :| id in left;
      queue := queue + [id];
      left := left - {id};
    }
  }

  /** Adds the dependents of one member. */
  method Grow(c: seq<Instance>, list: seq<Identity>, s: set<Identity>, queue: seq<Identity>)
    returns (grown: set<Identity>, waiting: seq<Identity>)
    requires s <= Ids(c) && forall id :: id in list ==> id in Ids(c)
    ensures s <= grown <= Ids(c) && (forall id :: id in grown <==> id in s || id in list)
    ensures forall id :: id in waiting <==> id in queue || id in grown - s
    ensures grown == s ==> waiting == queue
  {
    grown, waiting := s, queue;
    for k := 0 to |list|
      invariant s <= grown <= Ids(c) && (forall id :: id in grown <==> id in s || id in list[..k])
      invariant forall id :: id in waiting <==> id in queue || id in grown - s
      invariant grown == s ==> waiting == queue
    {
      var id := list[k];
      assert list[..k + 1] == list[..k] + [id];
      if id !in grown {
        grown := grown + {id};
        waiting := waiting + [id];
      }
    }
    assert list[..|list|] == list;
  }

  lemma LeastGrows(c: seq<Instance>, s: set<Identity>, current: Identity, grown: set<Identity>)
    requires Least(c, s) && current in s
    requires forall id :: id in grown ==> id in s || DependsOn(c, id, current)
    ensures Least(c, grown)
  {
    forall t: set<Identity> | Closed(c, t) ensures grown <= t {
      assert s <= t;
      forall id | id in grown ensures id in t {
        if id !in s {
          var i :| 0 <= i < |c| && c[i].id == id && current in c[i].dependsOn;
          assert Respects(c[i], t);
        }
      }
    }
  }

  lemma ExpandedIsClosed(c: seq<Instance>, dependents: map<Identity, seq<Identity>>, s: set<Identity>)
    requires forall dep, id :: Lists(dependents, dep, id) <==> DependsOn(c, id, dep)
    requires Expanded(dependents, s, [])
    requires forall i :: 0 <= i < |c| && c[i].opensTraffic ==> c[i].id in s
    ensures Closed(c, s)
  {
    forall i | 0 <= i < |c| ensures Respects(c[i], s) {
      forall d | d in c[i].dependsOn && d in s ensures c[i].id in s {
        assert DependsOn(c, c[i].id, d);
        assert Lists(dependents, d, c[i].id);
      }
    }
  }

  lemma StepExpands(dependents: map<Identity, seq<Identity>>, s: set<Identity>, queue: seq<Identity>,
                    grown: set<Identity>, waiting: seq<Identity>)
    requires queue != [] && Expanded(dependents, s, queue) && s <= grown
    requires forall id :: id in waiting <==> id in queue[1..] || id in grown - s
    requires forall id :: Lists(dependents, queue[0], id) ==> id in grown
    ensures Expanded(dependents, grown, waiting)
  {
    assert forall id :: id in queue ==> id == queue[0] || id in queue[1..];
  }

  /** What holds between two rounds of the search. */
  ghost predicate Searching(c: seq<Instance>, dependents: map<Identity, seq<Identity>>, s: set<Identity>,
                            queue: seq<Identity>)
  {
    && s <= Ids(c) && Least(c, s) && Expanded(dependents, s, queue)
    && (forall i :: 0 <= i < |c| && c[i].opensTraffic ==> c[i].id in s)
    && (forall id :: id in queue ==> id in s)
  }

  /** One round: the first of the queue contributes its dependents. */
  method Advance(c: seq<Instance>, dependents: map<Identity, seq<Identity>>, s: set<Identity>, queue: seq<Identity>)
    returns (grown: set<Identity>, waiting: seq<Identity>)
    requires forall dep, id :: Lists(dependents, dep, id) <==> DependsOn(c, id, dep)
    requires Searching(c, dependents, s, queue) && queue != []
    ensures Searching(c, dependents, grown, waiting) && s <= grown
    ensures grown == s ==> |waiting| < |queue|
  {
    var current := queue[0];
    var list := if current in dependents then dependents[current] else [];
    forall id | id in list ensures id in Ids(c) && DependsOn(c, id, current) {
      assert Lists(dependents, current, id);
    }
    grown, waiting := Grow(c, list, s, queue[1..]);
    LeastGrows(c, s, current, grown);
    StepExpands(dependents, s, queue, grown, waiting);
  }

  /** The ingress closure: the least set that holds every traffic opener and, with an
      instance, everything that depends on it. */
  method IngressClosure(c: seq<Instance>) returns (ingress: set<Identity>)
    ensures Closed(c, ingress) && Least(c, ingress)
  {
    ingress := Openers(c);
    if ingress == {} {
      return;
    }
    var dependents := Dependents(c);
    var queue := Enqueue(ingress);
    OpenersLeast(c, ingress);
    while queue != []
      invariant Searching(c, dependents, ingress, queue)
      decreases |Ids(c) - ingress|, |queue|
    {
      ghost var before := ingress;
      ingress, queue := Advance(c, dependents, ingress, queue);
      Shrinks(Ids(c), before, ingress);
    }
    ExpandedIsClosed(c, dependents, ingress);
  }

  lemma Shrinks(all: set<Identity>, s: set<Identity>, t: set<Identity>)
    requires s <= t <= all
    ensures t == s || |all - t| < |all - s|
  {
    if t != s {
      assert all - t < all - s by {
        var x :| x in t && x !in s;
        assert x in all - s && x !in all - t;
      }
      Smaller(all - t, all - s);
    }
  }

  lemma Smaller(s: set<Identity>, t: set<Identity>)
    requires s < t
    ensures |s| < |t|
  {
    assert t == s + (t - s);
  }

  lemma OpenersLeast(c: seq<Instance>, s: set<Identity>)
    requires forall id :: id in s <==> exists i :: 0 <= i < |c| && c[i].opensTraffic && c[i].id == id
    ensures Least(c, s) && s <= Ids(c)
  {
    forall t: set<Identity> | Closed(c, t) ensures s <= t {
      forall id | id in s ensures id in t {
        var i :| 0 <= i < |c| && c[i].opensTraffic && c[i].id == id;
        assert Respects(c[i], t);
      }
    }
  }
}
