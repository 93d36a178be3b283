/** The environment overlay: from the process environment to the configuration paths it sets. */
module Overlay {
  import opened Common
  import opened EnvNames
  import opened Universe

  // ---------------------------------------------------------------------------
  // Arbitration between the candidates for one name
  // ---------------------------------------------------------------------------

  function Siblings(existing: Option<Layers>, section: string): set<string> {
    if existing.Some? && section in existing.value then existing.value[section] else {}
  }

  predicate InstanceIsDeclared(c: Candidate, existing: Option<Layers>) {
    c.instance != "" && c.instance in Siblings(existing, c.section)
  }

  ghost predicate AnyDeclared(cs: seq<Candidate>) { exists c :: c in cs && c.declared }

  predicate Keeps(c: Candidate, existing: Option<Layers>) { c.declared || InstanceIsDeclared(c, existing) }

  function Filter(cs: seq<Candidate>, existing: Option<Layers>): seq<Candidate> {
    if cs == [] then []
    else Filter(cs[..|cs| - 1], existing) + Opt(Keeps(cs[|cs| - 1], existing), cs[|cs| - 1])
  }

  /** A declared reading drops the inferred ones, except those naming a declared instance. */
  ghost function Preferred(cs: seq<Candidate>, existing: Option<Layers>): seq<Candidate> {
    if AnyDeclared(cs) then Filter(cs, existing) else cs
  }

  lemma {:induction false} FilterMembers(cs: seq<Candidate>, existing: Option<Layers>)
    ensures forall c :: c in Filter(cs, existing) <==> c in cs && Keeps(c, existing)
  {
    if cs != [] {
      FilterMembers(cs[..|cs| - 1], existing);
      assert cs == cs[..|cs| - 1] + [cs[|cs| - 1]];
    }
  }

  /** The inferred instance would fork a declared one that spells the same. */
  ghost predicate Forks(u: Casing, c: Candidate, existing: Option<Layers>) {
    && c.instance != "" && c.instance !in Siblings(existing, c.section)
    && exists sibling :: sibling in Siblings(existing, c.section) && Segment(u, sibling) == Segment(u, c.instance)
  }

  ghost predicate AnyForks(u: Casing, cs: seq<Candidate>, existing: Option<Layers>)
  {
    exists c :: c in cs && Forks(u, c, existing)
  }

  /** What becomes of one variable. */
  datatype Decision = Skipped | Failed | Sets(path: string, value: Value)

  type Parser = (string, string) -> Option<Value>

  function Interpretation(cs: seq<Candidate>, raw: string, parse: Parser): Decision {
    if |cs| != 1 || cs[0].hinted || !cs[0].expressible then Failed
    else match parse(cs[0].path, raw) case None => Failed case Some(v) => Sets(cs[0].path, v)
  }

  predicate Reserved(rest: string) { rest == "" || rest == "PROFILE" }

  ghost function Decide(u: Casing, sections: seq<Section>, prefix: string, name: string, raw: string,
                        existing: Option<Layers>, parse: Parser): Decision
    requires HasPrefix(name, prefix)
  {
    if Reserved(name[|prefix|..]) then Skipped
    else if !Claimed(u, sections, prefix, name) then Failed
    else Arbitrated(u, Resolved(u, sections, prefix, name), raw, existing, parse)
  }

  ghost function Arbitrated(u: Casing, cs: seq<Candidate>, raw: string, existing: Option<Layers>,
                            parse: Parser): Decision
  {
    var kept := Preferred(cs, existing);
    if AnyForks(u, kept, existing) then Failed else Interpretation(kept, raw, parse)
  }

  /** A declared candidate survives, and is the only thing that can be set. */
  lemma DeclaredSurvives(u: Casing, cs: seq<Candidate>, c: Candidate, raw: string, existing: Option<Layers>,
                         parse: Parser)
    requires c in cs && c.declared
    ensures c in Preferred(cs, existing)
    ensures var d := Arbitrated(u, cs, raw, existing, parse);
            d.Failed? || (d.Sets? && d.path == c.path && parse(d.path, raw) == Some(d.value))
  {
    FilterMembers(cs, existing);
    assert AnyDeclared(cs);
  }

  /** The name of a typed leaf of an accepted universe, unless it is a reserved one, sets
      exactly that leaf or is reported; it never sets anything else and is never ignored. */
  lemma NameRoundTrip(u: Casing, sections: seq<Section>, prefix: string, s: Section, i: nat, raw: string,
                      existing: Option<Layers>, parse: Parser)
    requires IsLeaf(sections, s, i)
    ensures var name := EnvName(u, prefix, LeafPath(s, i));
            HasPrefix(name, prefix)
            && (!Reserved(name[|prefix|..]) ==>
                var d := Decide(u, sections, prefix, name, raw, existing, parse);
                d.Failed? || (d.Sets? && d.path == LeafPath(s, i) && parse(d.path, raw) == Some(d.value)))
  {
    var name := EnvName(u, prefix, LeafPath(s, i));
    var c := ResolvesToLeaf(u, sections, prefix, s, i);
    DeclaredSurvives(u, Resolved(u, sections, prefix, name), c, raw, existing, parse);
  }

  /** The excepted names: a leaf is reserved only inside a collapsed root, and there only
      when it spells PROFILE. */
  lemma ReservedOnlyAtRoot(u: Casing, sections: seq<Section>, prefix: string, s: Section, i: nat)
    requires IsLeaf(sections, s, i)
    ensures Reserved(Spelling(u, prefix, LeafPath(s, i)))
            <==> Spelling(u, prefix, s.path) == "" && Segment(u, Leaves(s)[i].path) == "PROFILE"
  {
    SpellingDotted(u, prefix, s.path, Leaves(s)[i].path);
    JoinedReserved(Spelling(u, prefix, s.path), Segment(u, Leaves(s)[i].path));
  }

  lemma ProfileWhole(k: nat)
    requires k < 7
    ensures "PROFILE"[k] != '_'
  {}

  /** A name with a joint in it is not the reserved one. */
  lemma JoinedReserved(own: string, leaf: string)
    ensures !Reserved(Joined(own, leaf))
  {
    assert Joined(own, leaf)[|own|] == '_';
    if Joined(own, leaf) == "PROFILE" {
      ProfileWhole(|own|);
    }
  }

  // ---------------------------------------------------------------------------
  // resolveWithNamespace
  // ---------------------------------------------------------------------------

  ghost function PathSet(cs: seq<Candidate>): set<string> { set k | 0 <= k < |cs| :: cs[k].path }

  ghost predicate Sees(seen: set<string>, cs: seq<Candidate>) { seen == PathSet(cs) }

  method AddCandidate(cs: seq<Candidate>, seen: set<string>, c: Candidate)
    returns (more: seq<Candidate>, saw: set<string>)
    requires Sees(seen, cs)
    ensures more == Add(cs, c) && Sees(saw, more)
  {
    if c.path in seen {
      return cs, seen;
    }
    more, saw := cs + [c], seen + {c.path};
    PathSetSnoc(cs, c);
  }

  lemma PathSetSnoc(cs: seq<Candidate>, c: Candidate)
    ensures PathSet(cs + [c]) == PathSet(cs) + {c.path}
  {
    var more := cs + [c];
    forall p | p in PathSet(cs) + {c.path} ensures p in PathSet(more) {
      if p in PathSet(cs) {
        var k :| 0 <= k < |cs| && cs[k].path == p;
        assert more[k].path == p;
      } else {
        assert more[|cs|].path == p;
      }
    }
  }

  lemma AddAllSnoc(cs: seq<Candidate>, more: seq<Candidate>, c: Candidate)
    ensures AddAll(cs, more + [c]) == Add(AddAll(cs, more), c)
  {
    assert (more + [c])[..|more + [c]| - 1] == more;
  }

  method AddOpt(cs: seq<Candidate>, seen: set<string>, b: bool, c: Candidate, ghost start: seq<Candidate>,
                ghost done: seq<Candidate>)
    returns (more: seq<Candidate>, saw: set<string>)
    requires Sees(seen, cs) && cs == AddAll(start, done)
    ensures Sees(saw, more) && more == AddAll(start, done + Opt(b, c))
  {
    more, saw := cs, seen;
    if b {
      more, saw := AddCandidate(cs, seen, c);
      AddAllSnoc(start, done, c);
    } else {
      assert done + Opt(b, c) == done;
    }
  }

  method MatchTyped(u: Casing, s: Section, tail: string, cs: seq<Candidate>, seen: set<string>)
    returns (more: seq<Candidate>, saw: set<string>, matched: bool)
    requires Sees(seen, cs)
    ensures Sees(saw, more) && more == AddAll(cs, TypedCandidates(u, s, tail))
    ensures matched <==> TypedCandidates(u, s, tail) != []
  {
    more, saw, matched := cs, seen, false;
    for i := 0 to |Leaves(s)|
      invariant Sees(saw, more) && more == AddAll(cs, TypedLeaves(u, s, tail, i))
      invariant matched <==> TypedLeaves(u, s, tail, i) != []
    {
      var leaf := Leaves(s)[i];
      var hit := tail == Segment(u, leaf.path);
      more, saw := AddOpt(more, saw, hit, Declared(Dotted(s.path, leaf.path), leaf.expressible), cs,
                          TypedLeaves(u, s, tail, i));
      matched := matched || hit;
    }
    var hit := s.toggle && tail == TOGGLE;
    more, saw := AddOpt(more, saw, hit, Declared(Dotted(s.path, ENABLED_KEY), true), cs,
                        TypedLeaves(u, s, tail, |Leaves(s)|));
    matched := matched || hit;
  }

  method MatchToggle(u: Casing, s: Section, tail: string, cs: seq<Candidate>, seen: set<string>)
    returns (more: seq<Candidate>, saw: set<string>, matched: bool)
    requires Sees(seen, cs)
    ensures Sees(saw, more) && more == AddAll(cs, InstancedToggle(u, s, tail))
    ensures matched <==> InstancedToggle(u, s, tail) != []
  {
    var own := s.toggle && tail == TOGGLE;
    assert [] + Opt(own, Declared(Dotted(s.path, ENABLED_KEY), true))
      == Opt(own, Declared(Dotted(s.path, ENABLED_KEY), true));
    more, saw := AddOpt(cs, seen, own, Declared(Dotted(s.path, ENABLED_KEY), true), cs, []);
    var instance := InstanceOf(u, tail, TOGGLE);
    matched := own;
    if s.toggle && instance.Some? {
      AddAllSnoc(cs, Opt(own, Declared(Dotted(s.path, ENABLED_KEY), true)),
                 Inferred(s, instance.value, ENABLED_KEY, true));
      more, saw := AddCandidate(more, saw, Inferred(s, instance.value, ENABLED_KEY, true));
      matched := true;
    } else {
      assert InstancedToggle(u, s, tail) == Opt(own, Declared(Dotted(s.path, ENABLED_KEY), true));
    }
  }

  lemma {:induction false} AddAllConcat(cs: seq<Candidate>, x: seq<Candidate>, y: seq<Candidate>)
    ensures AddAll(AddAll(cs, x), y) == AddAll(cs, x + y)
  {
    if y == [] {
      assert x + y == x;
    } else {
      AddAllConcat(cs, x, y[..|y| - 1]);
      assert x + y == (x + y[..|y| - 1]) + [y[|y| - 1]];
      AddAllSnoc(cs, x + y[..|y| - 1], y[|y| - 1]);
    }
  }

  method MatchInstancedLeaf(u: Casing, s: Section, tail: string, leaf: Leaf, cs: seq<Candidate>, seen: set<string>,
                            ghost start: seq<Candidate>, ghost done: seq<Candidate>)
    returns (more: seq<Candidate>, saw: set<string>, hit: bool)
    requires Sees(seen, cs) && cs == AddAll(start, done)
    ensures Sees(saw, more) && more == AddAll(start, done + InstancedLeaf(u, s, tail, leaf))
    ensures hit <==> InstancedLeaf(u, s, tail, leaf) != []
  {
    if tail == Segment(u, leaf.path) {
      more, saw := AddOpt(cs, seen, true, Hinted(Dotted(s.path, leaf.path)), start, done);
      return more, saw, true;
    }
    var instance := InstanceOf(u, tail, Segment(u, leaf.path));
    if instance.Some? {
      more, saw := AddOpt(cs, seen, true, Inferred(s, instance.value, leaf.path, leaf.expressible), start, done);
      return more, saw, true;
    }
    assert done + InstancedLeaf(u, s, tail, leaf) == done;
    return cs, seen, false;
  }

  method MatchInstances(u: Casing, s: Section, tail: string, cs: seq<Candidate>, seen: set<string>)
    returns (more: seq<Candidate>, saw: set<string>, matched: bool)
    requires Sees(seen, cs)
    ensures Sees(saw, more) && more == AddAll(cs, InstancedLeaves(u, s, tail, |Leaves(s)|))
    ensures matched <==> InstancedLeaves(u, s, tail, |Leaves(s)|) != []
  {
    more, saw, matched := cs, seen, false;
    ghost var done: seq<Candidate> := [];
    for i := 0 to |Leaves(s)|
      invariant done == InstancedLeaves(u, s, tail, i) && (matched <==> done != [])
      invariant Sees(saw, more) && more == AddAll(cs, done)
    {
      var hit;
      more, saw, hit := MatchInstancedLeaf(u, s, tail, Leaves(s)[i], more, saw, cs, done);
      done := done + InstancedLeaf(u, s, tail, Leaves(s)[i]);
      matched := matched || hit;
    }
  }

  method MatchInstanced(u: Casing, s: Section, tail: string, cs: seq<Candidate>, seen: set<string>)
    returns (more: seq<Candidate>, saw: set<string>, matched: bool)
    requires Sees(seen, cs) && s.kind == Instanced
    ensures Sees(saw, more) && more == AddAll(cs, CandidatesIn(u, s, tail))
    ensures matched <==> CandidatesIn(u, s, tail) != []
  {
    var toggled;
    more, saw, toggled := MatchToggle(u, s, tail, cs, seen);
    more, saw, matched := MatchInstances(u, s, tail, more, saw);
    matched := matched || toggled;
    AddAllConcat(cs, InstancedToggle(u, s, tail), InstancedLeaves(u, s, tail, |Leaves(s)|));
  }

  /** What one section adds, and whether it claims the name. */
  method MatchSection(u: Casing, s: Section, prefix: string, name: string, cs: seq<Candidate>, seen: set<string>)
    returns (more: seq<Candidate>, saw: set<string>, claims: bool)
    requires Sees(seen, cs)
    ensures Sees(saw, more) && more == AddAll(cs, CandidatesOf(u, s, prefix, name))
    ensures claims <==> Claims(u, s, prefix, name)
  {
    more, saw, claims := cs, seen, false;
    var own := SectionPrefix(u, prefix, s.path);
    if !HasPrefix(name, own) {
      return;
    }
    var collapsed := own == prefix;
    var tail := name[|own|..];
    if tail == "" {
      claims := !collapsed;
      return;
    }
    var matched;
    match s.kind
    case Namespace =>
      claims := !collapsed;
    case Freeform =>
      claims := true;
      AddAllSnoc(cs, [], Hinted(Dotted(s.path, LowerAll(u, tail))));
      assert [] + [Hinted(Dotted(s.path, LowerAll(u, tail)))] == CandidatesIn(u, s, tail);
      more, saw := AddCandidate(cs, seen, Hinted(Dotted(s.path, LowerAll(u, tail))));
    case Typed =>
      more, saw, matched := MatchTyped(u, s, tail, cs, seen);
      claims := matched || !collapsed;
    case Instanced =>
      more, saw, matched := MatchInstanced(u, s, tail, cs, seen);
      claims := matched || !collapsed;
  }

  lemma TakeSnoc(sections: seq<Section>, i: nat)
    requires i < |sections|
    ensures sections[..i] + [sections[i]] == sections[..i + 1]
  {}

  /** One more section. */
  method ResolveNext(u: Casing, s: Section, prefix: string, name: string, cs: seq<Candidate>, seen: set<string>,
                     claimed: bool, ghost done: seq<Section>)
    returns (more: seq<Candidate>, saw: set<string>, claims: bool)
    requires Sees(seen, cs) && cs == Resolved(u, done, prefix, name) && (claimed <==> Claimed(u, done, prefix, name))
    ensures Sees(saw, more) && more == Resolved(u, done + [s], prefix, name)
            && (claims <==> Claimed(u, done + [s], prefix, name))
  {
    ResolvedSnoc(u, done, s, prefix, name);
    ClaimedSnoc(u, done, s, prefix, name);
    more, saw, claims := MatchSection(u, s, prefix, name, cs, seen);
    claims := claimed || claims;
  }

  method Resolve(u: Casing, sections: seq<Section>, prefix: string, name: string)
    returns (cs: seq<Candidate>, claimed: bool)
    ensures cs == Resolved(u, sections, prefix, name) && (claimed <==> Claimed(u, sections, prefix, name))
  {
    cs, claimed := [], false;
    var seen: set<string> := {};
    ghost var done: seq<Section> := [];
    for i := 0 to |sections|
      invariant done == sections[..i] && Sees(seen, cs)
      invariant cs == Resolved(u, done, prefix, name) && (claimed <==> Claimed(u, done, prefix, name))
    {
      TakeSnoc(sections, i);
      cs, seen, claimed := ResolveNext(u, sections[i], prefix, name, cs, seen, claimed, done);
      done := done + [sections[i]];
    }
    assert done == sections;
  }

  lemma ResolvedSnoc(u: Casing, sections: seq<Section>, s: Section, prefix: string, name: string)
    ensures Resolved(u, sections + [s], prefix, name)
            == AddAll(Resolved(u, sections, prefix, name), CandidatesOf(u, s, prefix, name))
  {
    assert (sections + [s])[..|sections + [s]| - 1] == sections;
  }

  lemma ClaimedSnoc(u: Casing, sections: seq<Section>, s: Section, prefix: string, name: string)
    ensures Claimed(u, sections + [s], prefix, name)
            <==> Claimed(u, sections, prefix, name) || Claims(u, s, prefix, name)
  {
    assert s in sections + [s];
  }

  // ---------------------------------------------------------------------------
  // envOverlay
  // ---------------------------------------------------------------------------

  method PreferDeclared(cs: seq<Candidate>, existing: Option<Layers>) returns (kept: seq<Candidate>)
    ensures kept == Preferred(cs, existing)
  {
    var declared := false;
    for i := 0 to |cs|
      invariant declared <==> AnyDeclared(cs[..i])
    {
      assert cs[..i + 1] == cs[..i] + [cs[i]];
      assert cs[i] in cs[..i + 1];
      declared := declared || cs[i].declared;
    }
    assert cs[..|cs|] == cs;
    if !declared {
      return cs;
    }
    kept := [];
    for i := 0 to |cs|
      invariant kept == Filter(cs[..i], existing)
    {
      assert cs[..i + 1][..i] == cs[..i];
      if cs[i].declared || InstanceIsDeclared(cs[i], existing) {
        kept := kept + [cs[i]];
      }
    }
  }

  method CheckFork(u: Casing, c: Candidate, existing: Option<Layers>) returns (forks: bool)
    ensures forks <==> Forks(u, c, existing)
  {
    var siblings := Siblings(existing, c.section);
    if c.instance == "" || c.instance in siblings {
      return false;
    }
    var left := siblings;
    while left != {}
      invariant left <= siblings
      invariant forall x :: x in siblings && Segment(u, x) == Segment(u, c.instance) ==> x in left
      decreases |left|
    {
      var x :| x in left;
      if Segment(u, x) == Segment(u, c.instance) {
        return true;
      }
      left := left - {x};
    }
    return false;
  }

  method CheckInstanceCollision(u: Casing, cs: seq<Candidate>, existing: Option<Layers>) returns (collides: bool)
    ensures collides <==> AnyForks(u, cs, existing)
  {
    for i := 0 to |cs|
      invariant !AnyForks(u, cs[..i], existing)
    {
      assert cs[..i + 1] == cs[..i] + [cs[i]];
      var forks := CheckFork(u, cs[i], existing);
      if forks {
        assert cs[i] in cs;
        return true;
      }
    }
    assert cs[..|cs|] == cs;
    return false;
  }

  method DecideOne(u: Casing, sections: seq<Section>, prefix: string, name: string, raw: string,
                   existing: Option<Layers>, parse: Parser)
    returns (d: Decision)
    requires HasPrefix(name, prefix)
    ensures d == Decide(u, sections, prefix, name, raw, existing, parse)
  {
    if Reserved(name[|prefix|..]) {
      return Skipped;
    }
    var cs, claimed := Resolve(u, sections, prefix, name);
    if !claimed {
      return Failed;
    }
    cs := PreferDeclared(cs, existing);
    var collides := CheckInstanceCollision(u, cs, existing);
    if collides {
      return Failed;
    }
    return Interpretation(cs, raw, parse);
  }

  /** An entry of the environment: everything before the first '=' is the name. */
  function NameOf(entry: string): string { entry[..FirstOf(entry, '=')] }

  function RawOf(entry: string): string
  {
    if FirstOf(entry, '=') < |entry| then entry[FirstOf(entry, '=') + 1..] else ""
  }

  predicate IsOurs(entry: string, prefix: string) { FirstOf(entry, '=') < |entry| && HasPrefix(entry, prefix) }

  /** An entry is split at its first '='; one without is nobody's. */
  lemma EntryParts(prefix: string, name: string, raw: string)
    requires '=' !in name
    ensures NameOf(name + "=" + raw) == name && RawOf(name + "=" + raw) == raw && !IsOurs(name, prefix)
    ensures '=' !in prefix ==> (IsOurs(name + "=" + raw, prefix) <==> prefix <= name)
  {
    FirstIs(name + "=" + raw, '=', |name|);
    FirstIs(name, '=', |name|);
    assert (name + "=" + raw)[..|name|] == name && (name + "=" + raw)[|name| + 1..] == raw;
    if '=' !in prefix && IsOurs(name + "=" + raw, prefix) {
      PrefixOfName(name + "=" + raw, prefix);
    }
    if prefix <= name {
      assert (name + "=" + raw)[..|prefix|] == name[..|prefix|];
    }
  }

  ghost function EntryDecision(u: Casing, sections: seq<Section>, prefix: string, entry: string,
                               existing: Option<Layers>, parse: Parser): Decision
  {
    if IsOurs(entry, prefix) && HasPrefix(NameOf(entry), prefix)
    then Decide(u, sections, prefix, NameOf(entry), RawOf(entry), existing, parse) else Skipped
  }

  /** What the decisions set, a later one winning. */
  ghost function Overlaid(ds: seq<Decision>): map<string, Value> {
    if ds == [] then map[] else Put(Overlaid(ds[..|ds| - 1]), ds[|ds| - 1])
  }

  lemma PrefixOfName(entry: string, prefix: string)
    requires IsOurs(entry, prefix) && '=' !in prefix
    ensures HasPrefix(NameOf(entry), prefix)
  {
    assert forall k :: 0 <= k < |prefix| ==> entry[k] == prefix[k];
    assert NameOf(entry)[..|prefix|] == entry[..|prefix|];
  }

  ghost function Decisions(u: Casing, sections: seq<Section>, prefix: string, environ: seq<string>,
                           existing: Option<Layers>, parse: Parser): seq<Decision>
  {
    seq(|environ|, i requires 0 <= i < |environ| => EntryDecision(u, sections, prefix, environ[i], existing, parse))
  }

  lemma DecisionsSnoc(u: Casing, sections: seq<Section>, prefix: string, environ: seq<string>, entry: string,
                      existing: Option<Layers>, parse: Parser)
    ensures Decisions(u, sections, prefix, environ + [entry], existing, parse)
            == Decisions(u, sections, prefix, environ, existing, parse)
               + [EntryDecision(u, sections, prefix, entry, existing, parse)]
  {}

  function Put(values: map<string, Value>, d: Decision): map<string, Value> {
    if d.Sets? then values[d.path := d.value] else values
  }

  lemma OverlaidSnoc(ds: seq<Decision>, d: Decision)
    ensures Overlaid(ds + [d]) == Put(Overlaid(ds), d)
  {
    assert (ds + [d])[..|ds + [d]| - 1] == ds;
  }

  method DecideEntry(u: Casing, sections: seq<Section>, prefix: string, entry: string, existing: Option<Layers>,
                     parse: Parser)
    returns (d: Decision)
    requires '=' !in prefix
    ensures d == EntryDecision(u, sections, prefix, entry, existing, parse)
  {
    if !IsOurs(entry, prefix) {
      return Skipped;
    }
    PrefixOfName(entry, prefix);
    d := DecideOne(u, sections, prefix, NameOf(entry), RawOf(entry), existing, parse);
  }

  ghost predicate AnyFailed(ds: seq<Decision>) { exists i :: 0 <= i < |ds| && ds[i].Failed? }

  /** What the overlay is to be: nothing exactly when a variable fails. */
  ghost predicate IsOverlay(values: Option<map<string, Value>>, ds: seq<Decision>) {
    (values.None? <==> AnyFailed(ds)) && (values.Some? ==> values.value == Overlaid(ds))
  }

  /** The overlay fails exactly when some variable does, and otherwise holds what the
      variables set. */
  method EnvOverlay(u: Casing, sections: seq<Section>, prefix: string, environ: seq<string>, existing: Option<Layers>,
                    parse: Parser)
    returns (values: Option<map<string, Value>>)
    requires '=' !in prefix
    ensures IsOverlay(values, Decisions(u, sections, prefix, environ, existing, parse))
  {
    var found: map<string, Value> := map[];
    var failures := 0;
    ghost var ds: seq<Decision> := [];
    for i := 0 to |environ|
      invariant ds == Decisions(u, sections, prefix, environ[..i], existing, parse)
      invariant found == Overlaid(ds) && failures >= 0 && (failures > 0 <==> AnyFailed(ds))
    {
      assert environ[..i + 1] == environ[..i] + [environ[i]];
      DecisionsSnoc(u, sections, prefix, environ[..i], environ[i], existing, parse);
      var d := DecideEntry(u, sections, prefix, environ[i], existing, parse);
      OverlaidSnoc(ds, d);
      ghost var before := ds;
      ds := ds + [d];
      assert forall k :: 0 <= k < |before| ==> ds[k] == before[k];
      assert ds[|before|] == d;
      match d
      case Skipped =>
      case Failed => failures := failures + 1;
      case Sets(path, value) => found := found[path := value];
    }
    assert environ[..|environ|] == environ;
    if failures > 0 {
      return None;
    }
    return Some(found);
  }

  // ---------------------------------------------------------------------------
  // End to end
  // ---------------------------------------------------------------------------

  lemma {:induction false} LastSetWins(ds: seq<Decision>, k: nat)
    requires k < |ds| && ds[k].Sets?
    requires forall j :: k < j < |ds| && ds[j].Sets? ==> ds[j].path != ds[k].path
    ensures ds[k].path in Overlaid(ds) && Overlaid(ds)[ds[k].path] == ds[k].value
  {
    if k < |ds| - 1 {
      LastSetWins(ds[..|ds| - 1], k);
    }
  }

  /** Whatever is set was a candidate. */
  lemma SetsACandidate(u: Casing, cs: seq<Candidate>, raw: string, existing: Option<Layers>, parse: Parser)
    returns (c: Candidate)
    requires Arbitrated(u, cs, raw, existing, parse).Sets?
    ensures c in cs && c.path == Arbitrated(u, cs, raw, existing, parse).path
  {
    FilterMembers(cs, existing);
    c := Preferred(cs, existing)[0];
    assert c in Preferred(cs, existing);
  }

  /** Only its own name sets a typed leaf. */
  lemma OnlyItsNameSets(u: Casing, sections: seq<Section>, prefix: string, s: Section, i: nat, name: string,
                        raw: string, existing: Option<Layers>, parse: Parser)
    requires IsLeaf(sections, s, i) && Segment(u, ENABLED_KEY) == TOGGLE && HasPrefix(name, prefix)
    requires var d := Decide(u, sections, prefix, name, raw, existing, parse); d.Sets? && d.path == LeafPath(s, i)
    ensures name == EnvName(u, prefix, LeafPath(s, i))
  {
    var c := SetsACandidate(u, Resolved(u, sections, prefix, name), raw, existing, parse);
    OnlyItsName(u, sections, prefix, name, s, i, c);
  }

  /** Entry k spells the name, and no later one does. */
  ghost predicate LastSpelling(environ: seq<string>, prefix: string, name: string, k: nat) {
    && k < |environ| && IsOurs(environ[k], prefix) && NameOf(environ[k]) == name
    && forall j :: k < j < |environ| && IsOurs(environ[j], prefix) ==> NameOf(environ[j]) != name
  }

  /** The decision on one entry that spells the leaf, and on one that does not. */
  lemma EntrySpells(u: Casing, sections: seq<Section>, prefix: string, s: Section, i: nat, entry: string,
                    existing: Option<Layers>, parse: Parser)
    requires IsLeaf(sections, s, i) && Segment(u, ENABLED_KEY) == TOGGLE && IsOurs(entry, prefix) && '=' !in prefix
    requires !Reserved(Spelling(u, prefix, LeafPath(s, i)))
    ensures var d := EntryDecision(u, sections, prefix, entry, existing, parse);
            if NameOf(entry) == EnvName(u, prefix, LeafPath(s, i))
            then d.Failed? || (d.Sets? && d.path == LeafPath(s, i) && parse(d.path, RawOf(entry)) == Some(d.value))
            else d.Sets? ==> d.path != LeafPath(s, i)
  {
    PrefixOfName(entry, prefix);
    var name := NameOf(entry);
    if name == EnvName(u, prefix, LeafPath(s, i)) {
      assert name[|prefix|..] == Spelling(u, prefix, LeafPath(s, i));
      NameRoundTrip(u, sections, prefix, s, i, RawOf(entry), existing, parse);
    } else {
      var d := Decide(u, sections, prefix, name, RawOf(entry), existing, parse);
      if d.Sets? && d.path == LeafPath(s, i) {
        OnlyItsNameSets(u, sections, prefix, s, i, name, RawOf(entry), existing, parse);
      }
    }
  }

  /** End to end: when the overlay of an environment that spells a typed leaf succeeds, it
      holds for that leaf the value the last entry that spells it parses to. */
  lemma LeafIsSet(u: Casing, sections: seq<Section>, prefix: string, s: Section, i: nat, environ: seq<string>, k: nat,
                  existing: Option<Layers>, parse: Parser, values: Option<map<string, Value>>)
    requires IsLeaf(sections, s, i) && Segment(u, ENABLED_KEY) == TOGGLE && '=' !in prefix
    requires !Reserved(Spelling(u, prefix, LeafPath(s, i)))
    requires LastSpelling(environ, prefix, EnvName(u, prefix, LeafPath(s, i)), k)
    requires IsOverlay(values, Decisions(u, sections, prefix, environ, existing, parse)) && values.Some?
    ensures var path := LeafPath(s, i);
            path in values.value && parse(path, RawOf(environ[k])) == Some(values.value[path])
  {
    var ds := Decisions(u, sections, prefix, environ, existing, parse);
    EntrySpells(u, sections, prefix, s, i, environ[k], existing, parse);
    assert ds[k] == EntryDecision(u, sections, prefix, environ[k], existing, parse);
    forall j | k < j < |ds| && ds[j].Sets? ensures ds[j].path != LeafPath(s, i) {
      assert ds[j] == EntryDecision(u, sections, prefix, environ[j], existing, parse);
      EntrySpells(u, sections, prefix, s, i, environ[j], existing, parse);
    }
    LastSetWins(ds, k);
  }

  /** Any casing that maps the ASCII letters as usual spells the toggle as it must. */
  lemma AsciiSpellsToggle(u: Casing)
    requires forall c: char :: 'a' <= c <= 'z' ==> u.upper(c) == c - 'a' + 'A'
    ensures Segment(u, ENABLED_KEY) == TOGGLE
  {
    var s := ENABLED_KEY;
    assert s[..7] == s;
    assert Segment(u, s[..0]) == "";
    SegmentStep(u, s, 1);
    SegmentStep(u, s, 2);
    SegmentStep(u, s, 3);
    SegmentStep(u, s, 4);
    SegmentStep(u, s, 5);
    SegmentStep(u, s, 6);
    SegmentStep(u, s, 7);
  }

  lemma SegmentStep(u: Casing, s: string, n: nat)
    requires 0 < n <= |s|
    ensures Segment(u, s[..n]) == Segment(u, s[..n - 1]) + [Spell(u, s[n - 1])]
  {
    assert s[..n][..n - 1] == s[..n - 1];
  }
}
