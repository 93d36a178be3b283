/** The declared configuration sections and the environment overlay: which sections may be
    declared together, what a variable can mean, and what the overlay then sets. */
module Universe {
  import opened Common
  import opened EnvNames

  datatype Kind = Namespace | Freeform | Typed | Instanced

  datatype Leaf = Leaf(path: string, expressible: bool)

  datatype Section = Section(path: string, kind: Kind, toggle: bool, schema: Option<seq<Leaf>>)

  /** One path a variable could name.  `instance` is non-empty exactly for an inferred
      reading; a hinted candidate has no single-variable spelling. */
  datatype Candidate = Candidate(path: string, expressible: bool, hinted: bool, declared: bool,
                                 section: string, instance: string)

  type Value = string

  /** The instances the lower layers declare, by section. */
  type Layers = map<string, set<string>>

  function Leaves(s: Section): seq<Leaf> { if s.schema.None? then [] else s.schema.value }

  // ---------------------------------------------------------------------------
  // Accepted universes
  // ---------------------------------------------------------------------------

  /** path lies beneath above. */
  predicate Nests(path: string, above: string) { above + "." <= path }

  /** a is the nearest declared section above path. */
  ghost predicate Nearest(path: string, a: Section, sections: seq<Section>) {
    a in sections && Nests(path, a.path) && forall b :: b in sections && Nests(path, b.path) ==> |b.path| <= |a.path|
  }

  ghost predicate ParentOk(s: Section, sections: seq<Section>) {
    '.' in s.path ==> exists a :: Nearest(s.path, a, sections) && a.kind == Namespace
  }

  predicate SchemaOk(s: Section) { s.schema.Some? ==> s.kind == Typed || s.kind == Instanced }

  ghost predicate DistinctPaths(sections: seq<Section>) {
    forall i, j :: 0 <= i < j < |sections| ==> sections[i].path != sections[j].path
  }

  ghost predicate Accepted(sections: seq<Section>) {
    && DistinctPaths(sections)
    && forall s :: s in sections ==> ValidPath(s.path) && ParentOk(s, sections) && SchemaOk(s)
  }

  /** One section without dots in its path is accepted exactly when it has a name and holds
      a schema only as a typed or an instanced one. */
  lemma SingleSection(s: Section)
    requires '.' !in s.path
    ensures Accepted([s]) <==> s.path != "" && (s.schema.Some? ==> s.kind != Namespace && s.kind != Freeform)
  {
    assert forall t :: t in [s] <==> t == s;
  }

  lemma PrefixNests(path: string, x: string, y: string)
    requires Nests(path, x) && Nests(path, y) && |x| < |y|
    ensures Nests(y, x)
  {
    assert (y + ".")[..|x| + 1] == path[..|x| + 1];
    assert y[..|x| + 1] == (y + ".")[..|x| + 1];
  }

  lemma NestsHasDot(path: string, above: string)
    requires Nests(path, above)
    ensures '.' in path
  {
    assert path[|above|] == '.';
  }

  lemma SamePath(sections: seq<Section>, s: Section, t: Section)
    requires DistinctPaths(sections) && s in sections && t in sections && s.path == t.path
    ensures s == t
  {}

  lemma EqualPaths(path: string, x: string, y: string)
    requires Nests(path, x) && Nests(path, y) && |x| == |y|
    ensures x == y
  {
    assert x == path[..|x|] && y == path[..|y|];
  }

  /** In an accepted universe nothing lies beneath a section that is not a namespace, however
      many declared sections are in between. */
  lemma {:induction false} OnlyUnderNamespaces(sections: seq<Section>, s: Section, above: Section)
    requires Accepted(sections) && s in sections && above in sections && Nests(s.path, above.path)
    ensures above.kind == Namespace
    decreases |s.path|
  {
    NestsHasDot(s.path, above.path);
    var a :| Nearest(s.path, a, sections) && a.kind == Namespace;
    if |above.path| == |a.path| {
      EqualPaths(s.path, above.path, a.path);
      SamePath(sections, a, above);
    } else {
      PrefixNests(s.path, above.path, a.path);
      OnlyUnderNamespaces(sections, a, above);
    }
  }

  // ---------------------------------------------------------------------------
  // NewUniverse
  // ---------------------------------------------------------------------------

  ghost predicate Indexes(byPath: map<string, Section>, sections: seq<Section>) {
    && (forall p :: p in byPath ==> byPath[p] in sections && byPath[p].path == p)
    && (forall s :: s in sections ==> s.path in byPath && byPath[s.path] == s)
  }

  /** Nothing declared lies strictly between parent and path. */
  ghost predicate NoneBetween(path: string, parent: string, sections: seq<Section>) {
    forall b :: b in sections && Nests(path, b.path) ==> |b.path| <= |parent|
  }

  lemma NextParent(path: string, parent: string, cut: int, sections: seq<Section>)
    requires Nests(path, parent) && NoneBetween(path, parent, sections) && cut == LastOf(parent, '.')
    requires forall b :: b in sections ==> b.path != parent
    ensures cut >= 0 ==> Nests(path, parent[..cut]) && NoneBetween(path, parent[..cut], sections)
    ensures cut < 0 ==> forall b :: b in sections ==> !Nests(path, b.path)
  {
    if cut >= 0 {
      assert parent[..cut] + "." == path[..cut + 1];
    }
    forall b | b in sections && Nests(path, b.path) ensures |b.path| <= cut {
      if |b.path| == |parent| {
        EqualPaths(path, b.path, parent);
        assert false;
      }
      assert path[|b.path|] == '.';
      assert parent[|b.path|] == path[|b.path|];
    }
  }

  lemma FirstParent(path: string, cut: int, sections: seq<Section>)
    requires cut == LastOf(path, '.') >= 0
    ensures Nests(path, path[..cut]) && NoneBetween(path, path[..cut], sections)
  {
    assert path[..cut] + "." == path[..cut + 1];
    forall b | b in sections && Nests(path, b.path) ensures |b.path| <= cut {
      assert path[|b.path|] == '.';
    }
  }

  lemma OneNearest(path: string, a: Section, sections: seq<Section>, byPath: map<string, Section>)
    requires Indexes(byPath, sections) && a in sections && Nests(path, a.path) && NoneBetween(path, a.path, sections)
    ensures Nearest(path, a, sections) && forall b :: Nearest(path, b, sections) ==> b == a
  {
    forall b | Nearest(path, b, sections) ensures b == a {
      EqualPaths(path, a.path, b.path);
    }
  }

  method CheckSectionParent(s: Section, byPath: map<string, Section>, ghost sections: seq<Section>) returns (ok: bool)
    requires Indexes(byPath, sections)
    ensures ok <==> ParentOk(s, sections)
  {
    var cut := LastOf(s.path, '.');
    if cut < 0 {
      return true;
    }
    var parent := s.path[..cut];
    FirstParent(s.path, cut, sections);
    assert s.path[cut] == '.';
    while true
      invariant Nests(s.path, parent) && NoneBetween(s.path, parent, sections)
      decreases |parent|
    {
      if parent in byPath {
        OneNearest(s.path, byPath[parent], sections, byPath);
        return byPath[parent].kind == Namespace;
      }
      cut := LastOf(parent, '.');
      NextParent(s.path, parent, cut, sections);
      if cut < 0 {
        return false;
      }
      parent := parent[..cut];
    }
  }

  /** A set of sections is accepted exactly when their paths are valid and distinct, schemas
      stand on typed sections, and the nearest declared section above each is a namespace. */
  method NewUniverse(sections: seq<Section>) returns (ok: bool)
    ensures ok <==> Accepted(sections)
  {
    var byPath: map<string, Section> := map[];
    for i := 0 to |sections|
      invariant Indexes(byPath, sections[..i]) && DistinctPaths(sections[..i])
      invariant forall s :: s in sections[..i] ==> ValidPath(s.path)
    {
      assert sections[..i + 1] == sections[..i] + [sections[i]];
      assert sections[i] in sections;
      if !ValidPath(sections[i].path) {
        return false;
      }
      if sections[i].path in byPath {
        Repeated(sections, byPath, i);
        return false;
      }
      byPath := byPath[sections[i].path := sections[i]];
    }
    assert sections[..|sections|] == sections;
    for i := 0 to |sections|
      invariant forall s :: s in sections[..i] ==> ParentOk(s, sections) && SchemaOk(s)
    {
      assert sections[..i + 1] == sections[..i] + [sections[i]];
      var nested := CheckSectionParent(sections[i], byPath, sections);
      if !nested || !SchemaOk(sections[i]) {
        assert sections[i] in sections;
        return false;
      }
    }
    return true;
  }

  lemma Repeated(sections: seq<Section>, byPath: map<string, Section>, i: nat)
    requires i < |sections| && Indexes(byPath, sections[..i]) && sections[i].path in byPath
    ensures !DistinctPaths(sections)
  {
    var k :| 0 <= k < i && sections[..i][k] == byPath[sections[i].path];
    assert sections[k].path == sections[i].path;
  }

  // ---------------------------------------------------------------------------
  // What one section makes of a name
  // ---------------------------------------------------------------------------

  const TOGGLE: string := "ENABLED"
  const ENABLED_KEY: string := "enabled"

  function Declared(path: string, expressible: bool): Candidate {
    Candidate(path, expressible, false, true, "", "")
  }

  function Inferred(s: Section, instance: string, leaf: string, expressible: bool): Candidate {
    Candidate(Dotted(Dotted(s.path, instance), leaf), expressible, false, false, s.path, instance)
  }

  function Hinted(path: string): Candidate { Candidate(path, false, true, false, "", "") }

  function Opt(b: bool, c: Candidate): seq<Candidate> { if b then [c] else [] }

  /** The first n leaves of a typed section that tail names. */
  function TypedLeaves(u: Casing, s: Section, tail: string, n: nat): seq<Candidate>
    requires n <= |Leaves(s)|
  {
    if n == 0 then []
    else
      var leaf := Leaves(s)[n - 1];
      TypedLeaves(u, s, tail, n - 1)
        + Opt(tail == Segment(u, leaf.path), Declared(Dotted(s.path, leaf.path), leaf.expressible))
  }

  function TypedCandidates(u: Casing, s: Section, tail: string): seq<Candidate> {
    TypedLeaves(u, s, tail, |Leaves(s)|) + Opt(s.toggle && tail == TOGGLE, Declared(Dotted(s.path, ENABLED_KEY), true))
  }

  predicate InstanceChar(c: char) { 'a' <= c <= 'z' || '0' <= c <= '9' || c == '_' }

  /** Splits PRIMARY_POOL_MAX_IDLE into instance primary before the suffix POOL_MAX_IDLE. */
  function InstanceOf(u: Casing, tail: string, suffix: string): Option<string> {
    if |tail| <= |suffix| + 1 || !HasSuffix(tail, "_" + suffix) then None
    else
      var instance := LowerAll(u, tail[..|tail| - |suffix| - 1]);
      if forall i :: 0 <= i < |instance| ==> InstanceChar(instance[i]) then Some(instance) else None
  }

  function InstancedLeaf(u: Casing, s: Section, tail: string, leaf: Leaf): seq<Candidate> {
    if tail == Segment(u, leaf.path) then [Hinted(Dotted(s.path, leaf.path))]
    else
      var instance := InstanceOf(u, tail, Segment(u, leaf.path));
      if instance.Some? then [Inferred(s, instance.value, leaf.path, leaf.expressible)] else []
  }

  function InstancedLeaves(u: Casing, s: Section, tail: string, n: nat): seq<Candidate>
    requires n <= |Leaves(s)|
  {
    if n == 0 then [] else InstancedLeaves(u, s, tail, n - 1) + InstancedLeaf(u, s, tail, Leaves(s)[n - 1])
  }

  function InstancedToggle(u: Casing, s: Section, tail: string): seq<Candidate> {
    var instance := InstanceOf(u, tail, TOGGLE);
    Opt(s.toggle && tail == TOGGLE, Declared(Dotted(s.path, ENABLED_KEY), true))
      + (if s.toggle && instance.Some? then [Inferred(s, instance.value, ENABLED_KEY, true)] else [])
  }

  function CandidatesIn(u: Casing, s: Section, tail: string): seq<Candidate> {
    match s.kind
    case Namespace => []
    case Freeform => [Hinted(Dotted(s.path, LowerAll(u, tail)))]
    case Typed => TypedCandidates(u, s, tail)
    case Instanced => InstancedToggle(u, s, tail) + InstancedLeaves(u, s, tail, |Leaves(s)|)
  }

  function CandidatesOf(u: Casing, s: Section, prefix: string, name: string): seq<Candidate> {
    var own := SectionPrefix(u, prefix, s.path);
    if HasPrefix(name, own) && |name| > |own| then CandidatesIn(u, s, name[|own|..]) else []
  }

  /** Is the variable this section's to answer for?  A collapsed root claims a name only by
      matching it. */
  predicate Claims(u: Casing, s: Section, prefix: string, name: string) {
    var own := SectionPrefix(u, prefix, s.path);
    HasPrefix(name, own)
    && (own != prefix
        || (|name| > |own| && s.kind != Namespace && (s.kind == Freeform || CandidatesOf(u, s, prefix, name) != [])))
  }

  // ---------------------------------------------------------------------------
  // Resolution
  // ---------------------------------------------------------------------------

  predicate HasPath(cs: seq<Candidate>, path: string) { exists k :: 0 <= k < |cs| && cs[k].path == path }

  /** A path is added once; the first candidate for it stays. */
  function Add(cs: seq<Candidate>, c: Candidate): seq<Candidate> { if HasPath(cs, c.path) then cs else cs + [c] }

  function AddAll(cs: seq<Candidate>, more: seq<Candidate>): seq<Candidate> {
    if more == [] then cs else Add(AddAll(cs, more[..|more| - 1]), more[|more| - 1])
  }

  function Resolved(u: Casing, sections: seq<Section>, prefix: string, name: string): seq<Candidate> {
    if sections == [] then []
    else AddAll(Resolved(u, sections[..|sections| - 1], prefix, name),
                CandidatesOf(u, sections[|sections| - 1], prefix, name))
  }

  ghost predicate Claimed(u: Casing, sections: seq<Section>, prefix: string, name: string) {
    exists s :: s in sections && Claims(u, s, prefix, name)
  }

  // ---------------------------------------------------------------------------
  // The round trip
  // ---------------------------------------------------------------------------

  lemma {:induction false} AddAllMembers(cs: seq<Candidate>, more: seq<Candidate>)
    ensures forall c :: c in AddAll(cs, more) ==> c in cs || c in more
    ensures forall c :: c in more ==> HasPath(AddAll(cs, more), c.path)
    ensures cs <= AddAll(cs, more)
  {
    if more != [] {
      var init := more[..|more| - 1];
      AddAllMembers(cs, init);
      assert more == init + [more[|more| - 1]];
      var before, after := AddAll(cs, init), AddAll(cs, more);
      assert before <= after;
      forall c | c in more ensures HasPath(after, c.path) {
        if c in init {
          var k :| 0 <= k < |before| && before[k].path == c.path;
          assert after[k].path == c.path;
        } else if !HasPath(before, c.path) {
          assert after[|before|].path == c.path;
        }
      }
    }
  }

  lemma HasPathGrows(cs: seq<Candidate>, more: seq<Candidate>, path: string)
    requires HasPath(cs, path) && cs <= more
    ensures HasPath(more, path)
  {
    var k :| 0 <= k < |cs| && cs[k].path == path;
    assert more[k].path == path;
  }

  /** Every candidate comes from a section, and every section's paths are among them. */
  lemma {:induction false} ResolvedFrom(u: Casing, sections: seq<Section>, prefix: string, name: string, c: Candidate)
    ensures c in Resolved(u, sections, prefix, name)
            ==> exists s :: s in sections && c in CandidatesOf(u, s, prefix, name)
  {
    if c !in Resolved(u, sections, prefix, name) {
      return;
    }
    var init, last := sections[..|sections| - 1], sections[|sections| - 1];
    AddAllMembers(Resolved(u, init, prefix, name), CandidatesOf(u, last, prefix, name));
    if c in CandidatesOf(u, last, prefix, name) {
      assert last in sections;
    } else {
      ResolvedFrom(u, init, prefix, name, c);
    }
  }

  ghost predicate Offers(u: Casing, s: Section, prefix: string, name: string, path: string) {
    exists c :: c in CandidatesOf(u, s, prefix, name) && c.path == path
  }

  lemma ResolvedGrows(u: Casing, sections: seq<Section>, prefix: string, name: string, path: string)
    requires sections != []
    ensures HasPath(Resolved(u, sections[..|sections| - 1], prefix, name), path)
            || Offers(u, sections[|sections| - 1], prefix, name, path)
            ==> HasPath(Resolved(u, sections, prefix, name), path)
  {
    var before := Resolved(u, sections[..|sections| - 1], prefix, name);
    var more := CandidatesOf(u, sections[|sections| - 1], prefix, name);
    AddAllMembers(before, more);
    if HasPath(before, path) {
      HasPathGrows(before, AddAll(before, more), path);
    }
  }

  lemma {:induction false} ResolvedCovers(u: Casing, sections: seq<Section>, prefix: string, name: string, k: nat,
                                          path: string)
    requires k < |sections|
    ensures Offers(u, sections[k], prefix, name, path) ==> HasPath(Resolved(u, sections, prefix, name), path)
  {
    if k < |sections| - 1 {
      ResolvedCovers(u, sections[..|sections| - 1], prefix, name, k, path);
    }
    ResolvedGrows(u, sections, prefix, name, path);
  }

  lemma {:induction false} TypedLeafFound(u: Casing, s: Section, tail: string, n: nat, i: nat)
    requires i < n <= |Leaves(s)| && tail == Segment(u, Leaves(s)[i].path)
    ensures Declared(Dotted(s.path, Leaves(s)[i].path), Leaves(s)[i].expressible) in TypedLeaves(u, s, tail, n)
  {
    if i < n - 1 {
      TypedLeafFound(u, s, tail, n - 1, i);
    }
  }

  /** All that a typed section offers is declared. */
  lemma {:induction false} TypedAllDeclared(u: Casing, s: Section, tail: string, n: nat)
    requires n <= |Leaves(s)|
    ensures forall c :: c in TypedLeaves(u, s, tail, n) ==> c.declared
  {
    if n > 0 {
      TypedAllDeclared(u, s, tail, n - 1);
    }
  }

  lemma {:induction false} TypedBeneath(u: Casing, s: Section, tail: string, n: nat)
    requires n <= |Leaves(s)|
    ensures forall c :: c in TypedLeaves(u, s, tail, n) ==> Nests(c.path, s.path)
  {
    if n > 0 {
      TypedBeneath(u, s, tail, n - 1);
    }
  }

  lemma {:induction false} InstancedBeneath(u: Casing, s: Section, tail: string, n: nat)
    requires n <= |Leaves(s)|
    ensures forall c :: c in InstancedLeaves(u, s, tail, n) ==> Nests(c.path, s.path)
  {
    if n > 0 {
      InstancedBeneath(u, s, tail, n - 1);
      var leaf := Leaves(s)[n - 1];
      var instance := InstanceOf(u, tail, Segment(u, leaf.path));
      if instance.Some? {
        TwiceBeneath(s.path, instance.value, leaf.path);
      }
    }
  }

  lemma TwiceBeneath(path: string, x: string, y: string)
    ensures Nests(Dotted(Dotted(path, x), y), path)
  {
    assert Nests(Dotted(path, x), path);
  }

  /** Whatever a section offers lies beneath it. */
  lemma Beneath(u: Casing, s: Section, prefix: string, name: string, c: Candidate)
    requires c in CandidatesOf(u, s, prefix, name)
    ensures Nests(c.path, s.path) && s.kind != Namespace
  {
    var tail := name[|SectionPrefix(u, prefix, s.path)|..];
    match s.kind
    case Freeform =>
    case Typed => TypedBeneath(u, s, tail, |Leaves(s)|);
    case Instanced =>
      InstancedBeneath(u, s, tail, |Leaves(s)|);
      if InstanceOf(u, tail, TOGGLE).Some? {
        TwiceBeneath(s.path, InstanceOf(u, tail, TOGGLE).value, ENABLED_KEY);
      }
    case Namespace =>
  }

  /** Only the section that declares a typed leaf can offer its path. */
  lemma OnlyItsOwn(u: Casing, sections: seq<Section>, prefix: string, name: string, s: Section, t: Section,
                   path: string, c: Candidate)
    requires Accepted(sections) && s in sections && t in sections && s.kind == Typed
    requires Nests(path, s.path) && c in CandidatesOf(u, t, prefix, name) && c.path == path
    ensures t == s
  {
    Beneath(u, t, prefix, name, c);
    if |t.path| == |s.path| {
      EqualPaths(path, t.path, s.path);
      SamePath(sections, s, t);
    } else if |t.path| < |s.path| {
      PrefixNests(path, t.path, s.path);
      OnlyUnderNamespaces(sections, s, t);
    } else {
      PrefixNests(path, s.path, t.path);
      OnlyUnderNamespaces(sections, t, s);
    }
  }

  lemma TypedOffers(u: Casing, s: Section, prefix: string, name: string, c: Candidate)
    requires s.kind == Typed && c in CandidatesOf(u, s, prefix, name)
    ensures c.declared
  {
    TypedAllDeclared(u, s, name[|SectionPrefix(u, prefix, s.path)|..], |Leaves(s)|);
  }

  /** i is a leaf of a typed section of an accepted universe. */
  ghost predicate IsLeaf(sections: seq<Section>, s: Section, i: nat) {
    Accepted(sections) && s in sections && s.kind == Typed && i < |Leaves(s)| && Leaves(s)[i].path != ""
  }

  function LeafPath(s: Section, i: nat): string
    requires i < |Leaves(s)|
  {
    Dotted(s.path, Leaves(s)[i].path)
  }

  lemma OwnCandidate(u: Casing, sections: seq<Section>, prefix: string, s: Section, i: nat)
    requires IsLeaf(sections, s, i)
    ensures var name := EnvName(u, prefix, LeafPath(s, i));
            Declared(LeafPath(s, i), Leaves(s)[i].expressible) in CandidatesOf(u, s, prefix, name)
              && Claims(u, s, prefix, name)
  {
    var suffix := Segment(u, Leaves(s)[i].path);
    NamesAgree(u, prefix, s.path, Leaves(s)[i].path);
    var own := SectionPrefix(u, prefix, s.path);
    assert (own + suffix)[|own|..] == suffix;
    TypedLeafFound(u, s, suffix, |Leaves(s)|, i);
  }

  /** Every candidate for a typed leaf's path is a declared one. */
  lemma AllDeclared(u: Casing, sections: seq<Section>, prefix: string, name: string, s: Section, i: nat, c: Candidate)
    requires IsLeaf(sections, s, i) && c in Resolved(u, sections, prefix, name) && c.path == LeafPath(s, i)
    ensures c.declared
  {
    ResolvedFrom(u, sections, prefix, name, c);
    var t :| t in sections && c in CandidatesOf(u, t, prefix, name);
    OnlyItsOwn(u, sections, prefix, name, s, t, LeafPath(s, i), c);
    TypedOffers(u, s, prefix, name, c);
  }

  /** Resolving the name of a typed leaf claims it and yields that leaf, declared. */
  lemma ResolvesToLeaf(u: Casing, sections: seq<Section>, prefix: string, s: Section, i: nat) returns (c: Candidate)
    requires IsLeaf(sections, s, i)
    ensures var name := EnvName(u, prefix, LeafPath(s, i));
            Claimed(u, sections, prefix, name) && c in Resolved(u, sections, prefix, name) && c.path == LeafPath(s, i)
              && c.declared
  {
    var name := EnvName(u, prefix, LeafPath(s, i));
    OwnCandidate(u, sections, prefix, s, i);
    assert Offers(u, s, prefix, name, LeafPath(s, i));
    var j :| 0 <= j < |sections| && sections[j] == s;
    ResolvedCovers(u, sections, prefix, name, j, LeafPath(s, i));
    var cs := Resolved(u, sections, prefix, name);
    var k :| 0 <= k < |cs| && cs[k].path == LeafPath(s, i);
    c := cs[k];
    AllDeclared(u, sections, prefix, name, s, i, c);
  }

  lemma DottedInjective(path: string, x: string, y: string)
    requires Dotted(path, x) == Dotted(path, y)
    ensures x == y
  {
    assert Dotted(path, x)[|path| + 1..] == x;
    assert Dotted(path, y)[|path| + 1..] == y;
  }

  /** A typed section offers a leaf's path only to the tail that spells the leaf. */
  lemma {:induction false} TypedTail(u: Casing, s: Section, tail: string, n: nat, c: Candidate, leaf: string)
    requires n <= |Leaves(s)| && c in TypedLeaves(u, s, tail, n) && c.path == Dotted(s.path, leaf)
    ensures tail == Segment(u, leaf)
  {
    if c in TypedLeaves(u, s, tail, n - 1) {
      TypedTail(u, s, tail, n - 1, c, leaf);
    } else {
      DottedInjective(s.path, Leaves(s)[n - 1].path, leaf);
    }
  }

  /** No other name can mean a typed leaf. */
  lemma OnlyItsName(u: Casing, sections: seq<Section>, prefix: string, name: string, s: Section, i: nat, c: Candidate)
    requires IsLeaf(sections, s, i) && Segment(u, ENABLED_KEY) == TOGGLE
    requires c in Resolved(u, sections, prefix, name) && c.path == LeafPath(s, i)
    ensures name == EnvName(u, prefix, LeafPath(s, i))
  {
    ResolvedFrom(u, sections, prefix, name, c);
    var t :| t in sections && c in CandidatesOf(u, t, prefix, name);
    OnlyItsOwn(u, sections, prefix, name, s, t, LeafPath(s, i), c);
    OffersItsName(u, prefix, name, s, Leaves(s)[i].path, c);
  }

  lemma OffersItsName(u: Casing, prefix: string, name: string, s: Section, leaf: string, c: Candidate)
    requires s.kind == Typed && ValidPath(s.path) && Segment(u, ENABLED_KEY) == TOGGLE
    requires c in CandidatesOf(u, s, prefix, name) && c.path == Dotted(s.path, leaf)
    ensures name == EnvName(u, prefix, Dotted(s.path, leaf))
  {
    var tail := OfferedTo(u, prefix, name, s, c);
    TailIsLeaf(u, s, tail, leaf, c);
    NamesAgree(u, prefix, s.path, leaf);
  }

  /** A typed section answers to a name by what follows its own prefix. */
  lemma OfferedTo(u: Casing, prefix: string, name: string, s: Section, c: Candidate) returns (tail: string)
    requires s.kind == Typed && c in CandidatesOf(u, s, prefix, name)
    ensures name == SectionPrefix(u, prefix, s.path) + tail && c in TypedCandidates(u, s, tail)
  {
    var own := SectionPrefix(u, prefix, s.path);
    tail := name[|own|..];
    SplitName(name, own);
  }

  lemma SplitName(name: string, own: string)
    requires own <= name
    ensures name == own + name[|own|..]
  {}

  lemma TailIsLeaf(u: Casing, s: Section, tail: string, leaf: string, c: Candidate)
    requires Segment(u, ENABLED_KEY) == TOGGLE && c in TypedCandidates(u, s, tail) && c.path == Dotted(s.path, leaf)
    ensures tail == Segment(u, leaf)
  {
    if c in TypedLeaves(u, s, tail, |Leaves(s)|) {
      TypedTail(u, s, tail, |Leaves(s)|, c, leaf);
    } else {
      DottedInjective(s.path, ENABLED_KEY, leaf);
    }
  }
}
