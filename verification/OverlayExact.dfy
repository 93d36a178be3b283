/** When a variable takes effect: the exact condition under which the name of a typed leaf sets
    it, told on the declared sections, and what that makes of a whole environment. */
module OverlayExact {
  import opened Common
  import opened EnvNames
  import opened Universe
  import opened Overlay

  // ---------------------------------------------------------------------------
  // One candidate per path
  // ---------------------------------------------------------------------------

  ghost predicate UniquePaths(cs: seq<Candidate>) {
    forall i, j :: 0 <= i < j < |cs| ==> cs[i].path != cs[j].path
  }

  lemma AddUnique(cs: seq<Candidate>, c: Candidate)
    requires UniquePaths(cs)
    ensures UniquePaths(Add(cs, c))
  {
    if !HasPath(cs, c.path) {
      assert forall i :: 0 <= i < |cs| ==> cs[i].path != c.path;
    }
  }

  lemma {:induction false} AddAllUnique(cs: seq<Candidate>, more: seq<Candidate>)
    requires UniquePaths(cs)
    ensures UniquePaths(AddAll(cs, more))
  {
    if more != [] {
      AddAllUnique(cs, more[..|more| - 1]);
      AddUnique(AddAll(cs, more[..|more| - 1]), more[|more| - 1]);
    }
  }

  lemma {:induction false} ResolvedUnique(u: Casing, sections: seq<Section>, prefix: string, name: string)
    ensures UniquePaths(Resolved(u, sections, prefix, name))
  {
    if sections != [] {
      var init := sections[..|sections| - 1];
      ResolvedUnique(u, init, prefix, name);
      AddAllUnique(Resolved(u, init, prefix, name), CandidatesOf(u, sections[|sections| - 1], prefix, name));
    }
  }

  /** c is the first of more with its path. */
  ghost predicate FirstIn(more: seq<Candidate>, c: Candidate) {
    exists k :: 0 <= k < |more| && more[k] == c && forall j :: 0 <= j < k ==> more[j].path != c.path
  }

  lemma {:induction false} AddAllFirst(cs: seq<Candidate>, more: seq<Candidate>, c: Candidate)
    requires c in AddAll(cs, more) && c !in cs
    ensures FirstIn(more, c)
  {
    var init := more[..|more| - 1];
    if c in AddAll(cs, init) {
      AddAllFirst(cs, init, c);
      var k :| 0 <= k < |init| && init[k] == c && forall j :: 0 <= j < k ==> init[j].path != c.path;
      assert more[k] == c && forall j :: 0 <= j < k ==> more[j] == init[j];
    } else {
      AddAllMembers(cs, init);
      forall j | 0 <= j < |init| ensures init[j].path != c.path {
        assert init[j] in init;
      }
      assert more[|init|] == c;
    }
  }

  /** Every resolved candidate is the first of its path that its section offers. */
  lemma {:induction false} ResolvedFirst(u: Casing, sections: seq<Section>, prefix: string, name: string, c: Candidate)
    returns (s: Section)
    requires c in Resolved(u, sections, prefix, name)
    ensures s in sections && FirstIn(CandidatesOf(u, s, prefix, name), c)
  {
    var init, last := sections[..|sections| - 1], sections[|sections| - 1];
    if c in Resolved(u, init, prefix, name) {
      s := ResolvedFirst(u, init, prefix, name, c);
    } else {
      AddAllFirst(Resolved(u, init, prefix, name), CandidatesOf(u, last, prefix, name), c);
      s := last;
    }
  }

  // ---------------------------------------------------------------------------
  // The candidate of a leaf
  // ---------------------------------------------------------------------------

  ghost predicate DistinctLeaves(s: Section) {
    forall j, k :: 0 <= j < k < |Leaves(s)| ==> Leaves(s)[j].path != Leaves(s)[k].path
  }

  /** The candidate the declaration of leaf i calls for. */
  function Own(s: Section, i: nat): Candidate
    requires i < |Leaves(s)|
  {
    Declared(LeafPath(s, i), Leaves(s)[i].expressible)
  }

  lemma {:induction false} TypedLeafIs(u: Casing, s: Section, tail: string, n: nat, c: Candidate, i: nat)
    requires n <= |Leaves(s)| && i < |Leaves(s)| && DistinctLeaves(s)
    requires c in TypedLeaves(u, s, tail, n) && c.path == LeafPath(s, i)
    ensures c == Own(s, i)
  {
    if c in TypedLeaves(u, s, tail, n - 1) {
      TypedLeafIs(u, s, tail, n - 1, c, i);
    } else {
      DottedInjective(s.path, Leaves(s)[n - 1].path, Leaves(s)[i].path);
    }
  }

  /** The first of a path in a + [x] is in a if anything in a has that path. */
  lemma FirstInPrefix(a: seq<Candidate>, x: Candidate, c: Candidate, p: Candidate)
    requires FirstIn(a + [x], c) && p in a && p.path == c.path
    ensures c in a
  {
    var k :| 0 <= k < |a + [x]| && (a + [x])[k] == c && forall j :: 0 <= j < k ==> (a + [x])[j].path != c.path;
    var j :| 0 <= j < |a| && a[j] == p;
    assert (a + [x])[j] == p;
    assert k <= j && a[k] == c;
  }

  lemma OfferedLeafIs(u: Casing, s: Section, tail: string, c: Candidate, i: nat)
    requires i < |Leaves(s)| && DistinctLeaves(s) && tail == Segment(u, Leaves(s)[i].path)
    requires FirstIn(TypedCandidates(u, s, tail), c) && c.path == LeafPath(s, i)
    ensures c == Own(s, i)
  {
    TypedLeafFound(u, s, tail, |Leaves(s)|, i);
    var leaves := TypedLeaves(u, s, tail, |Leaves(s)|);
    if s.toggle && tail == TOGGLE {
      FirstInPrefix(leaves, Declared(Dotted(s.path, ENABLED_KEY), true), c, Own(s, i));
    } else {
      assert TypedCandidates(u, s, tail) == leaves;
    }
    TypedLeafIs(u, s, tail, |Leaves(s)|, c, i);
  }

  lemma OwnTail(u: Casing, prefix: string, s: Section, i: nat)
    requires ValidPath(s.path) && i < |Leaves(s)| && Leaves(s)[i].path != ""
    ensures var own, name := SectionPrefix(u, prefix, s.path), EnvName(u, prefix, LeafPath(s, i));
            own <= name && name[|own|..] == Segment(u, Leaves(s)[i].path) && |name| > |own|
  {
    NamesAgree(u, prefix, s.path, Leaves(s)[i].path);
    var own, suffix := SectionPrefix(u, prefix, s.path), Segment(u, Leaves(s)[i].path);
    assert (own + suffix)[|own|..] == suffix;
  }

  lemma OwnOffers(u: Casing, prefix: string, s: Section, i: nat)
    requires s.kind == Typed && ValidPath(s.path) && i < |Leaves(s)| && Leaves(s)[i].path != ""
    ensures CandidatesOf(u, s, prefix, EnvName(u, prefix, LeafPath(s, i)))
            == TypedCandidates(u, s, Segment(u, Leaves(s)[i].path))
  {
    OwnTail(u, prefix, s, i);
  }

  /** Whatever resolves to a leaf's path under the leaf's own name is the leaf as declared. */
  lemma LeafCandidateIs(u: Casing, sections: seq<Section>, prefix: string, s: Section, i: nat, c: Candidate)
    requires IsLeaf(sections, s, i) && DistinctLeaves(s) && c.path == LeafPath(s, i)
    requires c in Resolved(u, sections, prefix, EnvName(u, prefix, LeafPath(s, i)))
    ensures c == Own(s, i)
  {
    var name := EnvName(u, prefix, LeafPath(s, i));
    var t := ResolvedFirst(u, sections, prefix, name, c);
    FirstIsMember(CandidatesOf(u, t, prefix, name), c);
    OnlyItsOwn(u, sections, prefix, name, s, t, LeafPath(s, i), c);
    OwnOffers(u, prefix, s, i);
    OfferedLeafIs(u, s, Segment(u, Leaves(s)[i].path), c, i);
  }

  lemma FirstIsMember(more: seq<Candidate>, c: Candidate)
    requires FirstIn(more, c)
    ensures c in more
  {}

  lemma OwnResolved(u: Casing, sections: seq<Section>, prefix: string, s: Section, i: nat)
    requires IsLeaf(sections, s, i) && DistinctLeaves(s)
    ensures var name := EnvName(u, prefix, LeafPath(s, i));
            Claimed(u, sections, prefix, name) && Own(s, i) in Resolved(u, sections, prefix, name)
  {
    var c := ResolvesToLeaf(u, sections, prefix, s, i);
    LeafCandidateIs(u, sections, prefix, s, i, c);
  }

  // ---------------------------------------------------------------------------
  // What a section offers, exactly
  // ---------------------------------------------------------------------------

  /** The candidate names the toggle of the section itself. */
  predicate SectionToggle(s: Section, tail: string, c: Candidate) {
    s.toggle && tail == "ENABLED" && c == Candidate(s.path + "." + "enabled", true, false, true, "", "")
  }

  /** tail is an instance name in capitals, an underscore and the suffix. */
  ghost predicate SpellsInstance(u: Casing, tail: string, suffix: string, instance: string) {
    exists head :: head != "" && tail == head + "_" + suffix && instance == LowerAll(u, head)
                   && forall i :: 0 <= i < |instance| ==>
                                    'a' <= instance[i] <= 'z' || '0' <= instance[i] <= '9' || instance[i] == '_'
  }

  ghost predicate InstanceToggle(u: Casing, s: Section, tail: string, c: Candidate) {
    s.toggle && SpellsInstance(u, tail, "ENABLED", c.instance)
    && c == Candidate(s.path + "." + c.instance + "." + "enabled", true, false, false, s.path, c.instance)
  }

  /** A leaf of an instanced section: without an instance a hint, with one the leaf of it. */
  ghost predicate InstanceLeaf(u: Casing, s: Section, leaf: Leaf, tail: string, c: Candidate) {
    if tail == Segment(u, leaf.path) then c == Candidate(s.path + "." + leaf.path, false, true, false, "", "")
    else
      && SpellsInstance(u, tail, Segment(u, leaf.path), c.instance)
      && c == Candidate(s.path + "." + c.instance + "." + leaf.path, leaf.expressible, false, false, s.path, c.instance)
  }

  predicate TypedLeaf(u: Casing, s: Section, leaf: Leaf, tail: string, c: Candidate) {
    tail == Segment(u, leaf.path) && c == Candidate(s.path + "." + leaf.path, leaf.expressible, false, true, "", "")
  }

  lemma InstanceExactly(u: Casing, tail: string, suffix: string, instance: string)
    ensures InstanceOf(u, tail, suffix) == Some(instance) <==> SpellsInstance(u, tail, suffix, instance)
  {
    if InstanceOf(u, tail, suffix) == Some(instance) {
      var head := tail[..|tail| - |suffix| - 1];
      assert tail == head + "_" + suffix;
      assert forall i :: 0 <= i < |instance| ==> InstanceChar(instance[i]);
    }
    if SpellsInstance(u, tail, suffix, instance) {
      HeadIs(u, tail, suffix, instance);
    }
  }

  lemma HeadIs(u: Casing, tail: string, suffix: string, instance: string)
    requires SpellsInstance(u, tail, suffix, instance)
    ensures InstanceOf(u, tail, suffix) == Some(instance)
  {
    var head :| head != "" && tail == head + "_" + suffix && instance == LowerAll(u, head)
                && forall i :: 0 <= i < |instance| ==>
                                 'a' <= instance[i] <= 'z' || '0' <= instance[i] <= '9' || instance[i] == '_';
    assert tail[|tail| - |"_" + suffix|..] == "_" + suffix;
    assert tail[..|tail| - |suffix| - 1] == head;
  }

  lemma InstancedLeafExactly(u: Casing, s: Section, tail: string, leaf: Leaf, c: Candidate)
    ensures c in InstancedLeaf(u, s, tail, leaf) <==> InstanceLeaf(u, s, leaf, tail, c)
  {
    InstanceExactly(u, tail, Segment(u, leaf.path), c.instance);
    var instance := InstanceOf(u, tail, Segment(u, leaf.path));
    if instance.Some? {
      InstanceExactly(u, tail, Segment(u, leaf.path), instance.value);
    }
  }

  /** One of the first n leaves means c. */
  ghost predicate SomeInstanceLeaf(u: Casing, s: Section, tail: string, n: nat, c: Candidate)
    requires n <= |Leaves(s)|
  {
    exists k :: 0 <= k < n && InstanceLeaf(u, s, Leaves(s)[k], tail, c)
  }

  lemma OneMoreLeaf(u: Casing, s: Section, tail: string, n: nat, c: Candidate)
    requires 0 < n <= |Leaves(s)|
    ensures SomeInstanceLeaf(u, s, tail, n, c) <==>
              SomeInstanceLeaf(u, s, tail, n - 1, c) || InstanceLeaf(u, s, Leaves(s)[n - 1], tail, c)
  {}

  lemma {:induction false} InstancedExactly(u: Casing, s: Section, tail: string, n: nat, c: Candidate)
    requires n <= |Leaves(s)|
    ensures c in InstancedLeaves(u, s, tail, n) <==> SomeInstanceLeaf(u, s, tail, n, c)
  {
    if n > 0 {
      InstancedExactly(u, s, tail, n - 1, c);
      OneMoreLeaf(u, s, tail, n, c);
      InstancedLeafExactly(u, s, tail, Leaves(s)[n - 1], c);
      InEither(InstancedLeaves(u, s, tail, n - 1), InstancedLeaf(u, s, tail, Leaves(s)[n - 1]), c);
    }
  }

  lemma {:induction false} TypedExactly(u: Casing, s: Section, tail: string, n: nat, c: Candidate)
    requires n <= |Leaves(s)|
    ensures c in TypedLeaves(u, s, tail, n) <==> exists k :: 0 <= k < n && TypedLeaf(u, s, Leaves(s)[k], tail, c)
  {
    if n > 0 {
      TypedExactly(u, s, tail, n - 1, c);
      var leaf := Leaves(s)[n - 1];
      InEither(TypedLeaves(u, s, tail, n - 1),
               Opt(tail == Segment(u, leaf.path), Declared(Dotted(s.path, leaf.path), leaf.expressible)), c);
    }
  }

  lemma ToggleExactly(u: Casing, s: Section, tail: string, c: Candidate)
    ensures c in InstancedToggle(u, s, tail) <==> SectionToggle(s, tail, c) || InstanceToggle(u, s, tail, c)
  {
    InstanceExactly(u, tail, "ENABLED", c.instance);
    var instance := InstanceOf(u, tail, "ENABLED");
    if instance.Some? {
      InstanceExactly(u, tail, "ENABLED", instance.value);
    }
  }

  /** What a section's declaration makes of the part of a name behind its own prefix. */
  ghost predicate Means(u: Casing, s: Section, tail: string, c: Candidate) {
    match s.kind
    case Namespace => false
    case Freeform => c == Candidate(s.path + "." + LowerAll(u, tail), false, true, false, "", "")
    case Typed =>
      SectionToggle(s, tail, c) || exists k :: 0 <= k < |Leaves(s)| && TypedLeaf(u, s, Leaves(s)[k], tail, c)
    case Instanced =>
      SectionToggle(s, tail, c) || InstanceToggle(u, s, tail, c) || SomeInstanceLeaf(u, s, tail, |Leaves(s)|, c)
  }

  /** A section offers for a name exactly what its declaration says. */
  lemma OffersExactly(u: Casing, s: Section, prefix: string, name: string, c: Candidate)
    ensures c in CandidatesOf(u, s, prefix, name) <==>
              var own := SectionPrefix(u, prefix, s.path);
              own <= name && |name| > |own| && Means(u, s, name[|own|..], c)
  {
    var own := SectionPrefix(u, prefix, s.path);
    if own <= name && |name| > |own| {
      var tail := name[|own|..];
      match s.kind
      case Namespace =>
      case Freeform =>
      case Typed =>
        TypedExactly(u, s, tail, |Leaves(s)|, c);
        InEither(TypedLeaves(u, s, tail, |Leaves(s)|),
                 Opt(s.toggle && tail == TOGGLE, Declared(Dotted(s.path, ENABLED_KEY), true)), c);
      case Instanced =>
        ToggleExactly(u, s, tail, c);
        InstancedExactly(u, s, tail, |Leaves(s)|, c);
        InEither(InstancedToggle(u, s, tail), InstancedLeaves(u, s, tail, |Leaves(s)|), c);
    }
  }

  lemma InEither(a: seq<Candidate>, b: seq<Candidate>, c: Candidate)
    ensures c in a + b <==> c in a || c in b
  {}

  // ---------------------------------------------------------------------------
  // The decision
  // ---------------------------------------------------------------------------

  /** Another path among the candidates is not passed over: a declared one, or an instance the
      lower layers declare. */
  ghost predicate HasRival(cs: seq<Candidate>, path: string, existing: Option<Layers>) {
    exists c :: c in cs && c.path != path
                && (c.declared || (c.instance != "" && c.instance in Siblings(existing, c.section)))
  }

  ghost predicate Rivalled(u: Casing, sections: seq<Section>, prefix: string, name: string, path: string,
                           existing: Option<Layers>)
  {
    HasRival(Resolved(u, sections, prefix, name), path, existing)
  }

  lemma {:induction false} FilterUnique(cs: seq<Candidate>, existing: Option<Layers>)
    requires UniquePaths(cs)
    ensures UniquePaths(Filter(cs, existing))
  {
    if cs != [] {
      var init, last := cs[..|cs| - 1], cs[|cs| - 1];
      FilterUnique(init, existing);
      FilterMembers(init, existing);
      var kept := Filter(init, existing);
      forall i | 0 <= i < |kept| ensures kept[i].path != last.path {
        assert kept[i] in kept;
        var j :| 0 <= j < |init| && init[j] == kept[i];
        assert cs[j] == init[j];
      }
    }
  }

  /** A declared candidate among candidates of different paths is left alone exactly when no
      other is kept. */
  lemma KeptAlone(cs: seq<Candidate>, own: Candidate, existing: Option<Layers>)
    requires UniquePaths(cs) && own in cs && own.declared
    ensures Preferred(cs, existing) == [own] <==> forall c :: c in cs && Keeps(c, existing) ==> c.path == own.path
    ensures |Preferred(cs, existing)| == 1 ==> Preferred(cs, existing) == [own]
  {
    FilterMembers(cs, existing);
    FilterUnique(cs, existing);
    assert AnyDeclared(cs);
    var kept := Filter(cs, existing);
    assert own in kept;
    if forall c :: c in cs && Keeps(c, existing) ==> c.path == own.path {
      AllOnePath(kept, own);
    } else {
      var c :| c in cs && Keeps(c, existing) && c.path != own.path;
      assert c in kept;
    }
  }

  lemma TwoPaths(kept: seq<Candidate>) returns (a: Candidate, b: Candidate)
    requires UniquePaths(kept) && |kept| >= 2
    ensures a in kept && b in kept && a.path != b.path
  {
    a, b := kept[0], kept[1];
  }

  lemma AllOnePath(kept: seq<Candidate>, own: Candidate)
    requires UniquePaths(kept) && own in kept && forall c :: c in kept ==> c.path == own.path
    ensures kept == [own]
  {
    if |kept| >= 2 {
      var a, b := TwoPaths(kept);
      assert false;
    }
  }

  lemma NoForks(u: Casing, cs: seq<Candidate>, existing: Option<Layers>)
    requires AnyDeclared(cs) && forall c :: c in cs && c.declared ==> c.instance == ""
    ensures !AnyForks(u, Preferred(cs, existing), existing)
  {
    FilterMembers(cs, existing);
  }

  /** No declared candidate names an instance. */
  lemma DeclaredIsPlain(u: Casing, s: Section, prefix: string, name: string, c: Candidate)
    requires c in CandidatesOf(u, s, prefix, name) && c.declared
    ensures c.instance == ""
  {
    OffersExactly(u, s, prefix, name, c);
  }

  lemma ResolvedNoForks(u: Casing, sections: seq<Section>, prefix: string, name: string, existing: Option<Layers>)
    requires AnyDeclared(Resolved(u, sections, prefix, name))
    ensures !AnyForks(u, Preferred(Resolved(u, sections, prefix, name), existing), existing)
  {
    var cs := Resolved(u, sections, prefix, name);
    forall c | c in cs && c.declared ensures c.instance == "" {
      ResolvedFrom(u, sections, prefix, name, c);
      var t :| t in sections && c in CandidatesOf(u, t, prefix, name);
      DeclaredIsPlain(u, t, prefix, name, c);
    }
    NoForks(u, cs, existing);
  }

  /** What becomes of a value whose candidates hold the leaf's own. */
  function Outcome(own: Candidate, rivalled: bool, raw: string, parse: Parser): Decision {
    if own.expressible && !rivalled && parse(own.path, raw).Some? then Sets(own.path, parse(own.path, raw).value)
    else Failed
  }

  lemma ArbitratedExactly(u: Casing, cs: seq<Candidate>, own: Candidate, raw: string, existing: Option<Layers>,
                          parse: Parser)
    requires UniquePaths(cs) && own in cs && own.declared && !own.hinted
    requires !AnyForks(u, Preferred(cs, existing), existing)
    ensures Arbitrated(u, cs, raw, existing, parse) == Outcome(own, HasRival(cs, own.path, existing), raw, parse)
  {
    KeptAlone(cs, own, existing);
    assert HasRival(cs, own.path, existing) <==> !forall c :: c in cs && Keeps(c, existing) ==> c.path == own.path;
  }

  /** The name of a typed leaf sets it exactly when one variable can carry the leaf, the value
      parses, and no other path that is not passed over answers to the name; otherwise it is
      reported. */
  lemma SetsExactly(u: Casing, sections: seq<Section>, prefix: string, s: Section, i: nat, raw: string,
                    existing: Option<Layers>, parse: Parser)
    requires IsLeaf(sections, s, i) && DistinctLeaves(s) && !Reserved(Spelling(u, prefix, LeafPath(s, i)))
    ensures var path := LeafPath(s, i);
            var name := EnvName(u, prefix, path);
            HasPrefix(name, prefix)
            && var d := Decide(u, sections, prefix, name, raw, existing, parse);
               var fine := Leaves(s)[i].expressible && !Rivalled(u, sections, prefix, name, path, existing);
               d == if fine && parse(path, raw).Some? then Sets(path, parse(path, raw).value) else Failed
  {
    var name := EnvName(u, prefix, LeafPath(s, i));
    NameRest(u, prefix, LeafPath(s, i));
    OwnResolved(u, sections, prefix, s, i);
    ResolvedUnique(u, sections, prefix, name);
    ResolvedNoForks(u, sections, prefix, name, existing);
    ArbitratedExactly(u, Resolved(u, sections, prefix, name), Own(s, i), raw, existing, parse);
  }

  lemma NameRest(u: Casing, prefix: string, path: string)
    ensures HasPrefix(EnvName(u, prefix, path), prefix)
    ensures EnvName(u, prefix, path)[|prefix|..] == Spelling(u, prefix, path)
  {}

  // ---------------------------------------------------------------------------
  // On the declarations
  // ---------------------------------------------------------------------------

  /** Leaf l of t answers to the tail, or to an instance followed by it. */
  predicate LeafAnswers(u: Casing, t: Section, l: Leaf, tail: string) {
    || (t.kind == Typed && tail == Segment(u, l.path))
    || (t.kind == Instanced && (tail == Segment(u, l.path) || HasSuffix(tail, "_" + Segment(u, l.path))))
  }

  predicate ToggleAnswers(t: Section, tail: string) {
    && t.toggle && (t.kind == Typed || t.kind == Instanced)
    && (tail == "ENABLED" || (t.kind == Instanced && HasSuffix(tail, "_ENABLED")))
  }

  /** The declaration of t leaves room for the name. */
  predicate Answers(u: Casing, t: Section, prefix: string, name: string) {
    var own := SectionPrefix(u, prefix, t.path);
    && own <= name && |name| > |own|
    && var tail := name[|own|..];
       t.kind == Freeform || ToggleAnswers(t, tail)
       || exists k :: 0 <= k < |Leaves(t)| && LeafAnswers(u, t, Leaves(t)[k], tail)
  }

  lemma SuffixOf(head: string, suffix: string)
    ensures HasSuffix(head + suffix, suffix)
  {
    assert (head + suffix)[|head|..] == suffix;
  }

  lemma InstanceIsSuffix(u: Casing, tail: string, suffix: string, instance: string)
    requires SpellsInstance(u, tail, suffix, instance)
    ensures HasSuffix(tail, "_" + suffix)
  {
    var head :| head != "" && tail == head + "_" + suffix;
    assert tail == head + ("_" + suffix);
    SuffixOf(head, "_" + suffix);
  }

  lemma MeaningAnswers(u: Casing, t: Section, tail: string, c: Candidate)
    requires Means(u, t, tail, c)
    ensures || t.kind == Freeform || ToggleAnswers(t, tail)
            || exists k :: 0 <= k < |Leaves(t)| && LeafAnswers(u, t, Leaves(t)[k], tail)
  {
    if t.kind == Instanced {
      if InstanceToggle(u, t, tail, c) {
        InstanceIsSuffix(u, tail, "ENABLED", c.instance);
        assert "_" + "ENABLED" == "_ENABLED";
      }
      forall k | 0 <= k < |Leaves(t)| && InstanceLeaf(u, t, Leaves(t)[k], tail, c)
        ensures LeafAnswers(u, t, Leaves(t)[k], tail)
      {
        if tail != Segment(u, Leaves(t)[k].path) {
          InstanceIsSuffix(u, tail, Segment(u, Leaves(t)[k].path), c.instance);
        }
      }
    }
  }

  lemma NoAnswerNoCandidate(u: Casing, t: Section, prefix: string, name: string)
    requires !Answers(u, t, prefix, name)
    ensures CandidatesOf(u, t, prefix, name) == []
  {
    var cs := CandidatesOf(u, t, prefix, name);
    if cs != [] {
      assert cs[0] in cs;
      OffersExactly(u, t, prefix, name, cs[0]);
      MeaningAnswers(u, t, name[|SectionPrefix(u, prefix, t.path)|..], cs[0]);
    }
  }

  /** No other section answers to leaf i's name, and nothing else in its own does. */
  ghost predicate Alone(u: Casing, sections: seq<Section>, prefix: string, s: Section, i: nat)
    requires i < |Leaves(s)|
  {
    && (forall t :: t in sections && t != s ==> !Answers(u, t, prefix, EnvName(u, prefix, LeafPath(s, i))))
    && (forall k :: 0 <= k < |Leaves(s)| && k != i ==> Segment(u, Leaves(s)[k].path) != Segment(u, Leaves(s)[i].path))
    && !(s.toggle && Segment(u, Leaves(s)[i].path) == "ENABLED")
  }

  /** Whatever a section offers under the name is the leaf. */
  lemma AloneOffers(u: Casing, sections: seq<Section>, prefix: string, s: Section, i: nat, t: Section, c: Candidate)
    requires IsLeaf(sections, s, i) && Alone(u, sections, prefix, s, i) && t in sections
    requires c in CandidatesOf(u, t, prefix, EnvName(u, prefix, LeafPath(s, i)))
    ensures c.path == LeafPath(s, i)
  {
    if t != s {
      NoAnswerNoCandidate(u, t, prefix, EnvName(u, prefix, LeafPath(s, i)));
    } else {
      OwnTail(u, prefix, s, i);
      OnlyOwnLeaf(u, s, i, |Leaves(s)|, c);
    }
  }

  lemma AloneIsUnrivalled(u: Casing, sections: seq<Section>, prefix: string, s: Section, i: nat,
                          existing: Option<Layers>)
    requires IsLeaf(sections, s, i) && Alone(u, sections, prefix, s, i)
    ensures !Rivalled(u, sections, prefix, EnvName(u, prefix, LeafPath(s, i)), LeafPath(s, i), existing)
  {
    var name := EnvName(u, prefix, LeafPath(s, i));
    forall c | c in Resolved(u, sections, prefix, name) ensures c.path == LeafPath(s, i) {
      ResolvedFrom(u, sections, prefix, name, c);
      var t :| t in sections && c in CandidatesOf(u, t, prefix, name);
      AloneOffers(u, sections, prefix, s, i, t, c);
    }
  }

  lemma {:induction false} OnlyOwnLeaf(u: Casing, s: Section, i: nat, n: nat, c: Candidate)
    requires i < |Leaves(s)| && n <= |Leaves(s)|
    requires forall k :: 0 <= k < |Leaves(s)| && k != i ==>
                           Segment(u, Leaves(s)[k].path) != Segment(u, Leaves(s)[i].path)
    ensures c in TypedLeaves(u, s, Segment(u, Leaves(s)[i].path), n) ==> c.path == LeafPath(s, i)
  {
    if n > 0 {
      OnlyOwnLeaf(u, s, i, n - 1, c);
    }
  }

  /** So the variable of a leaf that answers alone takes effect whenever its value parses. */
  lemma AloneSets(u: Casing, sections: seq<Section>, prefix: string, s: Section, i: nat, raw: string,
                  existing: Option<Layers>, parse: Parser)
    requires IsLeaf(sections, s, i) && DistinctLeaves(s) && !Reserved(Spelling(u, prefix, LeafPath(s, i)))
    requires Leaves(s)[i].expressible && Alone(u, sections, prefix, s, i)
    ensures var path := LeafPath(s, i);
            var name := EnvName(u, prefix, path);
            HasPrefix(name, prefix)
            && forall v :: Decide(u, sections, prefix, name, raw, existing, parse) == Sets(path, v)
                           <==> parse(path, raw) == Some(v)
  {
    SetsExactly(u, sections, prefix, s, i, raw, existing, parse);
    AloneIsUnrivalled(u, sections, prefix, s, i, existing);
  }

  lemma {:induction false} NobodyResolves(u: Casing, sections: seq<Section>, prefix: string, name: string)
    requires forall t :: t in sections ==> !Answers(u, t, prefix, name)
    ensures Resolved(u, sections, prefix, name) == []
  {
    if sections != [] {
      var init, last := sections[..|sections| - 1], sections[|sections| - 1];
      assert forall t :: t in init ==> t in sections;
      NobodyResolves(u, init, prefix, name);
      NoAnswerNoCandidate(u, last, prefix, name);
    }
  }

  /** A variable with our prefix that nothing declared answers to is reported, never ignored:
      only the bare prefix and PROFILE are. */
  lemma StrangerIsReported(u: Casing, sections: seq<Section>, prefix: string, rest: string, raw: string,
                           existing: Option<Layers>, parse: Parser)
    requires rest != "" && rest != "PROFILE"
    requires forall t :: t in sections ==> !Answers(u, t, prefix, prefix + rest)
    ensures Decide(u, sections, prefix, prefix + rest, raw, existing, parse).Failed?
  {
    assert (prefix + rest)[|prefix|..] == rest;
    NobodyResolves(u, sections, prefix, prefix + rest);
  }

  // ---------------------------------------------------------------------------
  // A whole environment
  // ---------------------------------------------------------------------------

  /** The entry is none of ours, or a reserved one, or spells a leaf that answers alone with
      a value that parses. */
  ghost predicate Sound(u: Casing, sections: seq<Section>, prefix: string, entry: string, parse: Parser) {
    || !IsOurs(entry, prefix)
    || (HasPrefix(NameOf(entry), prefix) && Reserved(NameOf(entry)[|prefix|..]))
    || exists s, i: nat :: IsLeaf(sections, s, i) && SpellsAlone(u, sections, prefix, entry, parse, s, i)
  }

  ghost predicate SpellsAlone(u: Casing, sections: seq<Section>, prefix: string, entry: string, parse: Parser,
                              s: Section, i: nat)
    requires i < |Leaves(s)|
  {
    && DistinctLeaves(s) && Leaves(s)[i].expressible && Alone(u, sections, prefix, s, i)
    && NameOf(entry) == EnvName(u, prefix, LeafPath(s, i)) && !Reserved(Spelling(u, prefix, LeafPath(s, i)))
    && parse(LeafPath(s, i), RawOf(entry)).Some?
  }

  lemma SpelledPasses(u: Casing, sections: seq<Section>, prefix: string, entry: string, existing: Option<Layers>,
                      parse: Parser, s: Section, i: nat)
    requires IsLeaf(sections, s, i) && SpellsAlone(u, sections, prefix, entry, parse, s, i) && IsOurs(entry, prefix)
    ensures EntryDecision(u, sections, prefix, entry, existing, parse)
            == Sets(LeafPath(s, i), parse(LeafPath(s, i), RawOf(entry)).value)
  {
    AloneSets(u, sections, prefix, s, i, RawOf(entry), existing, parse);
  }

  lemma SoundPasses(u: Casing, sections: seq<Section>, prefix: string, entry: string, existing: Option<Layers>,
                    parse: Parser)
    requires '=' !in prefix && Sound(u, sections, prefix, entry, parse)
    ensures !EntryDecision(u, sections, prefix, entry, existing, parse).Failed?
  {
    if IsOurs(entry, prefix) {
      if s, i: nat :| IsLeaf(sections, s, i) && SpellsAlone(u, sections, prefix, entry, parse, s, i) {
        SpelledPasses(u, sections, prefix, entry, existing, parse, s, i);
      }
    }
  }

  /** The overlay of an environment of such entries succeeds. */
  lemma OverlaySucceeds(u: Casing, sections: seq<Section>, prefix: string, environ: seq<string>,
                        existing: Option<Layers>, parse: Parser, values: Option<map<string, Value>>)
    requires '=' !in prefix && forall k :: 0 <= k < |environ| ==> Sound(u, sections, prefix, environ[k], parse)
    requires IsOverlay(values, Decisions(u, sections, prefix, environ, existing, parse))
    ensures values.Some?
  {
    var ds := Decisions(u, sections, prefix, environ, existing, parse);
    forall k | 0 <= k < |ds| ensures !ds[k].Failed? {
      SoundPasses(u, sections, prefix, environ[k], existing, parse);
    }
  }

  // ---------------------------------------------------------------------------
  // Instances
  // ---------------------------------------------------------------------------

  /** A name that an environment variable can spell and a lower-casing gives back. */
  predicate Spellable(u: Casing, instance: string) {
    && instance != "" && (forall i :: 0 <= i < |instance| ==> InstanceChar(instance[i]))
    && (forall i :: 0 <= i < |instance| ==> u.lower(u.upper(instance[i])) == instance[i])
  }

  lemma {:induction false} LowerUndoesSegment(u: Casing, instance: string)
    requires instance == "" || Spellable(u, instance)
    ensures LowerAll(u, Segment(u, instance)) == instance
  {
    if instance != "" {
      var init, last := instance[..|instance| - 1], instance[|instance| - 1];
      LowerUndoesSegment(u, init);
      assert Segment(u, instance)[..|instance| - 1] == Segment(u, init);
      assert InstanceChar(last);
      assert instance == init + [last];
    }
  }

  /** An instance known from the environment only is still found: the variable that spells it
      between the section and a leaf offers exactly that path. */
  lemma InstanceIsOffered(u: Casing, s: Section, prefix: string, instance: string, i: nat)
    requires s.kind == Instanced && i < |Leaves(s)| && Spellable(u, instance)
    ensures var name := SectionPrefix(u, prefix, s.path) + Joined(Segment(u, instance), Segment(u, Leaves(s)[i].path));
            Inferred(s, instance, Leaves(s)[i].path, Leaves(s)[i].expressible) in CandidatesOf(u, s, prefix, name)
  {
    var own, suffix := SectionPrefix(u, prefix, s.path), Segment(u, Leaves(s)[i].path);
    var tail := Joined(Segment(u, instance), suffix);
    assert (own + tail)[|own|..] == tail;
    LowerUndoesSegment(u, instance);
    assert SpellsInstance(u, tail, suffix, instance);
    var c := Inferred(s, instance, Leaves(s)[i].path, Leaves(s)[i].expressible);
    assert InstanceLeaf(u, s, Leaves(s)[i], tail, c);
    OffersExactly(u, s, prefix, own + tail, c);
  }

  /** The only reading of the name that any section has is c, and s has it. */
  ghost predicate OnlyReading(u: Casing, sections: seq<Section>, prefix: string, name: string, s: Section, c: Candidate)
  {
    && s in sections && c in CandidatesOf(u, s, prefix, name)
    && forall t, d :: t in sections && d in CandidatesOf(u, t, prefix, name) ==> d == c
  }

  lemma {:induction false} PathResolved(u: Casing, sections: seq<Section>, prefix: string, name: string, s: Section,
                                        c: Candidate)
    requires s in sections && c in CandidatesOf(u, s, prefix, name)
    ensures HasPath(Resolved(u, sections, prefix, name), c.path)
  {
    if s in sections[..|sections| - 1] {
      PathResolved(u, sections[..|sections| - 1], prefix, name, s, c);
    }
    ResolvedGrows(u, sections, prefix, name, c.path);
  }

  lemma OnlyReadingResolves(u: Casing, sections: seq<Section>, prefix: string, name: string, s: Section, c: Candidate)
    requires OnlyReading(u, sections, prefix, name, s, c)
    ensures Resolved(u, sections, prefix, name) == [c]
  {
    var cs := Resolved(u, sections, prefix, name);
    PathResolved(u, sections, prefix, name, s, c);
    ResolvedUnique(u, sections, prefix, name);
    forall d | d in cs ensures d == c {
      ResolvedFrom(u, sections, prefix, name, d);
    }
    var k :| 0 <= k < |cs| && cs[k].path == c.path;
    assert cs[k] in cs;
    AllOnePath(cs, c);
  }

  /** The lower layers do not declare the instance, but one that is spelled like it. */
  ghost predicate Clashes(u: Casing, existing: Option<Layers>, section: string, instance: string) {
    && existing.Some? && section in existing.value && instance !in existing.value[section]
    && exists other :: other in existing.value[section] && Segment(u, other) == Segment(u, instance)
  }

  lemma OfferIsClaim(u: Casing, sections: seq<Section>, prefix: string, name: string, s: Section, c: Candidate)
    requires s in sections && c in CandidatesOf(u, s, prefix, name)
    ensures Claimed(u, sections, prefix, name)
  {
    OffersExactly(u, s, prefix, name, c);
    assert Claims(u, s, prefix, name);
  }

  /** A section answers for every name under its own prefix; one whose prefix is the common
      one, only for the names it offers something for. */
  lemma ClaimsExactly(u: Casing, s: Section, prefix: string, name: string)
    ensures var own := SectionPrefix(u, prefix, s.path);
            Claims(u, s, prefix, name) <==> own <= name && (own != prefix || CandidatesOf(u, s, prefix, name) != [])
  {}

  /** An instance that the variable alone brings into being, or overrides, is set exactly
      when one variable can carry the leaf, the value parses and no declared instance is
      spelled like it; otherwise the variable is reported. */
  lemma InstanceSetsExactly(u: Casing, sections: seq<Section>, prefix: string, s: Section, instance: string, i: nat,
                            rest: string, raw: string, existing: Option<Layers>, parse: Parser)
    requires s.kind == Instanced && i < |Leaves(s)| && Spellable(u, instance) && rest != "" && rest != "PROFILE"
    requires prefix + rest
             == SectionPrefix(u, prefix, s.path) + Joined(Segment(u, instance), Segment(u, Leaves(s)[i].path))
    requires OnlyReading(u, sections, prefix, prefix + rest, s,
                         Inferred(s, instance, Leaves(s)[i].path, Leaves(s)[i].expressible))
    ensures var path := s.path + "." + instance + "." + Leaves(s)[i].path;
            var fine := Leaves(s)[i].expressible && !Clashes(u, existing, s.path, instance);
            Decide(u, sections, prefix, prefix + rest, raw, existing, parse)
            == if fine && parse(path, raw).Some? then Sets(path, parse(path, raw).value) else Failed
  {
    var c := Inferred(s, instance, Leaves(s)[i].path, Leaves(s)[i].expressible);
    assert (prefix + rest)[|prefix|..] == rest;
    OnlyReadingResolves(u, sections, prefix, prefix + rest, s, c);
    OfferIsClaim(u, sections, prefix, prefix + rest, s, c);
    SingleExactly(u, c, raw, existing, parse);
  }

  lemma SingleExactly(u: Casing, c: Candidate, raw: string, existing: Option<Layers>, parse: Parser)
    requires !c.declared && !c.hinted && c.instance != ""
    ensures var fine := c.expressible && !Clashes(u, existing, c.section, c.instance);
            Arbitrated(u, [c], raw, existing, parse)
            == if fine && parse(c.path, raw).Some? then Sets(c.path, parse(c.path, raw).value) else Failed
  {
    assert Preferred([c], existing) == [c];
    assert AnyForks(u, [c], existing) <==> Forks(u, c, existing);
  }
}
