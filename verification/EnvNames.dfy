/** Environment-variable names: how a configuration path is spelled, and which declared
    paths a spelled name can mean.  Strings are sequences of runes, and the case mappings are
    arbitrary: nothing here depends on which they are. */
module EnvNames {
  import opened Common

  // ---------------------------------------------------------------------------
  // Strings
  // ---------------------------------------------------------------------------

  /** The case mappings of the runtime, rune by rune. */
  datatype Casing = Casing(upper: char -> char, lower: char -> char)

  function LowerAll(u: Casing, s: string): (r: string)
    ensures |r| == |s|
  {
    if s == "" then "" else LowerAll(u, s[..|s| - 1]) + [u.lower(s[|s| - 1])]
  }

  function Spell(u: Casing, c: char): char { if c == '.' || c == '-' then '_' else u.upper(c) }

  /** envSegment: dots and dashes become underscores, letters upper-case. */
  function Segment(u: Casing, s: string): (r: string)
    ensures |r| == |s|
  {
    if s == "" then "" else Segment(u, s[..|s| - 1]) + [Spell(u, s[|s| - 1])]
  }

  predicate HasPrefix(s: string, p: string) { p <= s }

  predicate HasSuffix(s: string, p: string) { |p| <= |s| && s[|s| - |p|..] == p }

  function TrimUnderscore(s: string): string { if HasSuffix(s, "_") then s[..|s| - 1] else s }

  function Dotted(path: string, leaf: string): string { path + "." + leaf }

  function Joined(s: string, t: string): string { s + "_" + t }

  /** The index of the last c, or -1. */
  function LastOf(s: string, c: char): (i: int)
    ensures -1 <= i < |s| && (i >= 0 ==> s[i] == c) && forall k :: i < k < |s| ==> s[k] != c
  {
    if s == "" then -1 else if s[|s| - 1] == c then |s| - 1 else LastOf(s[..|s| - 1], c)
  }

  lemma {:induction false} SegmentConcat(u: Casing, s: string, t: string)
    ensures Segment(u, s + t) == Segment(u, s) + Segment(u, t)
  {
    if t == "" {
      assert s + t == s;
    } else {
      var init := t[..|t| - 1];
      assert (s + t)[..|s + t| - 1] == s + init;
      SegmentConcat(u, s, init);
    }
  }

  /** Character by character: dots and dashes become underscores, the rest is upper-cased. */
  lemma {:induction false} SegmentAt(u: Casing, s: string, i: nat)
    requires i < |s|
    ensures Segment(u, s)[i] == if s[i] == '.' || s[i] == '-' then '_' else u.upper(s[i])
  {
    if i < |s| - 1 {
      SegmentAt(u, s[..|s| - 1], i);
    }
  }

  lemma FirstIs(s: string, c: char, i: nat)
    requires i <= |s| && (forall k :: 0 <= k < i ==> s[k] != c) && (i < |s| ==> s[i] == c)
    ensures FirstOf(s, c) == i
  {
    var j := FirstOf(s, c);
    assert j < |s| ==> s[j] == c;
  }

  lemma FirstDot(path: string, leaf: string)
    ensures FirstOf(Dotted(path, leaf), '.') == FirstOf(path, '.')
  {
    FirstIs(Dotted(path, leaf), '.', FirstOf(path, '.'));
  }

  lemma SegmentDotted(u: Casing, path: string, leaf: string)
    ensures Segment(u, Dotted(path, leaf)) == Joined(Segment(u, path), Segment(u, leaf))
  {
    SegmentConcat(u, path + ".", leaf);
    assert (path + ".")[..|path|] == path;
  }

  // ---------------------------------------------------------------------------
  // The two derivations of a name
  // ---------------------------------------------------------------------------

  /** The part of a name that follows the process prefix; a root that spells the prefix is
      not repeated. */
  function Spelling(u: Casing, prefix: string, path: string): string {
    var cut := FirstOf(path, '.');
    if Segment(u, path[..cut]) != TrimUnderscore(prefix) then Segment(u, path)
    else if cut == |path| then ""
    else Segment(u, path[cut + 1..])
  }

  function EnvName(u: Casing, prefix: string, path: string): string { prefix + Spelling(u, prefix, path) }

  function SectionPrefix(u: Casing, prefix: string, path: string): string {
    if Spelling(u, prefix, path) == "" then prefix else prefix + Spelling(u, prefix, path) + "_"
  }

  /** A non-empty dotted path. */
  predicate ValidPath(path: string) {
    && path != "" && path[0] != '.' && path[|path| - 1] != '.'
    && forall i :: 0 <= i < |path| - 1 ==> !(path[i] == '.' && path[i + 1] == '.')
  }

  /** A name without dots is valid unless empty, and a dotted path exactly when its parts are. */
  lemma ValidParts(a: string, b: string)
    ensures '.' !in a ==> (ValidPath(a) <==> a != "")
    ensures ValidPath(a + "." + b) <==> ValidPath(a) && ValidPath(b)
  {
    var p := a + "." + b;
    assert forall i :: 0 <= i < |a| ==> p[i] == a[i];
    assert forall i :: 0 <= i < |b| ==> p[|a| + 1 + i] == b[i];
    assert p[|a|] == '.';
    if ValidPath(p) {
      forall i | 0 <= i < |b| - 1 ensures !(b[i] == '.' && b[i + 1] == '.') {
        assert !(p[|a| + 1 + i] == '.' && p[|a| + 1 + i + 1] == '.');
      }
    }
    if ValidPath(a) && ValidPath(b) {
      forall i | 0 <= i < |p| - 1 ensures !(p[i] == '.' && p[i + 1] == '.') {
        if i > |a| {
          assert p[i] == b[i - |a| - 1] && p[i + 1] == b[i - |a|];
        }
      }
    }
  }

  lemma CutDotted(path: string, leaf: string, cut: nat)
    requires cut <= |path|
    ensures Dotted(path, leaf)[..cut] == path[..cut]
    ensures cut == |path| ==> Dotted(path, leaf)[cut + 1..] == leaf
    ensures cut < |path| ==> Dotted(path, leaf)[cut + 1..] == Dotted(path[cut + 1..], leaf)
  {}

  /** Does the root of the path spell the process prefix? */
  predicate Collapses(u: Casing, prefix: string, path: string) {
    Segment(u, path[..FirstOf(path, '.')]) == TrimUnderscore(prefix)
  }

  /** What Spelling is, in the two cases, for a path cut at its first dot. */
  lemma SpellingIs(u: Casing, prefix: string, path: string, cut: nat)
    requires cut == FirstOf(path, '.')
    ensures !Collapses(u, prefix, path) ==> Spelling(u, prefix, path) == Segment(u, path)
    ensures Collapses(u, prefix, path) && cut == |path| ==> Spelling(u, prefix, path) == ""
    ensures Collapses(u, prefix, path) && cut < |path| ==> Spelling(u, prefix, path) == Segment(u, path[cut + 1..])
  {}

  lemma CollapsesDotted(u: Casing, prefix: string, path: string, leaf: string)
    ensures Collapses(u, prefix, Dotted(path, leaf)) == Collapses(u, prefix, path)
  {
    FirstDot(path, leaf);
    CutDotted(path, leaf, FirstOf(path, '.'));
  }

  lemma SpellingDotted(u: Casing, prefix: string, path: string, leaf: string)
    requires ValidPath(path)
    ensures var own := Spelling(u, prefix, path);
            Spelling(u, prefix, Dotted(path, leaf))
            == if own == "" then Segment(u, leaf) else Joined(own, Segment(u, leaf))
  {
    var cut := FirstOf(path, '.');
    FirstDot(path, leaf);
    CollapsesDotted(u, prefix, path, leaf);
    SpellingIs(u, prefix, path, cut);
    SpellingIs(u, prefix, Dotted(path, leaf), cut);
    if !Collapses(u, prefix, path) {
      SegmentDotted(u, path, leaf);
    } else {
      CutDotted(path, leaf, cut);
      if cut < |path| {
        SegmentDotted(u, path[cut + 1..], leaf);
      }
    }
  }

  /** A root that spells the process prefix is not repeated; every other path is spelled in
      full.  The comparison is on the whole first segment. */
  lemma RootSpelled(u: Casing, prefix: string, root: string, rest: string)
    requires '.' !in root
    ensures Segment(u, root) == prefix ==>
              EnvName(u, prefix + "_", root + "." + rest) == prefix + "_" + Segment(u, rest)
    ensures Segment(u, root) == prefix ==> EnvName(u, prefix + "_", root) == prefix + "_"
    ensures Segment(u, root) != prefix
            ==> EnvName(u, prefix + "_", root + "." + rest) == prefix + "_" + Segment(u, root + "." + rest)
    ensures Segment(u, root) != prefix ==> EnvName(u, prefix + "_", root) == prefix + "_" + Segment(u, root)
  {
    FirstIs(root, '.', |root|);
    FirstIs(root + "." + rest, '.', |root|);
    CutAtRoot(root, rest);
    TrimmedPrefix(prefix);
  }

  lemma CutAtRoot(root: string, rest: string)
    ensures root[..|root|] == root && (root + "." + rest)[..|root|] == root && (root + "." + rest)[|root| + 1..] == rest
  {}

  lemma TrimmedPrefix(prefix: string)
    ensures TrimUnderscore(prefix + "_") == prefix
  {
    assert (prefix + "_")[|prefix|..] == "_";
  }

  lemma Regroup(prefix: string, own: string, tail: string)
    ensures prefix + Joined(own, tail) == prefix + own + "_" + tail
  {}

  /** The name of a rooted leaf is its section's prefix followed by the leaf's own spelling,
      collapsed root or not. */
  lemma NamesAgree(u: Casing, prefix: string, path: string, leaf: string)
    requires ValidPath(path)
    ensures EnvName(u, prefix, Dotted(path, leaf)) == SectionPrefix(u, prefix, path) + Segment(u, leaf)
  {
    SpellingDotted(u, prefix, path, leaf);
    var own := Spelling(u, prefix, path);
    Regroup(prefix, own, Segment(u, leaf));
  }
}
