/** The console encoder's field writer: it walks nested maps that may contain themselves and
    appends to a buffer, without colour. */
module ConsoleEncoder {
  import opened Common
  import opened Console

  const MAX_DEPTH: nat := 8
  const DEPTH_LIMIT: string := "<depth-limit>"
  const HIDDEN: set<string> := {"trace_id", "span_id", "request_id"}

  /** A map value is a reference, so that maps may be shared and cyclic. */
  datatype Val = Text(text: string) | Submap(node: nat)

  datatype Entry = Entry(key: string, val: Val)

  /** The entries of each map, in key order. */
  type Maps = map<nat, seq<Entry>>

  function Entries(h: Maps, n: nat): seq<Entry> { if n in h then h[n] else [] }

  function Join(prefix: string, key: string): string { if prefix == "" then key else prefix + "." + key }

  /** What the encoder shows of the entries. */
  function Flatten(h: Maps, entries: seq<Entry>, prefix: string, depth: nat): seq<Field>
    decreases MAX_DEPTH + 1 - depth, |entries|, 1
  {
    if entries == [] then []
    else Flatten(h, entries[..|entries| - 1], prefix, depth)
         + FlattenOne(h, entries[|entries| - 1], prefix, depth, |entries|)
  }

  function FlattenOne(h: Maps, e: Entry, prefix: string, depth: nat, n: nat): seq<Field>
    decreases MAX_DEPTH + 1 - depth, n, 0
  {
    var full := Join(prefix, e.key);
    if full in HIDDEN then []
    else match e.val
      case Text(s) => [Field(full, s)]
      case Submap(m) =>
        if depth < MAX_DEPTH then Flatten(h, Entries(h, m), full, depth + 1) else [Field(full, DEPTH_LIMIT)]
  }

  // ---------------------------------------------------------------------------
  // What is shown
  // ---------------------------------------------------------------------------

  /** The dotted key of a route. */
  function Full(prefix: string, r: seq<Entry>): string {
    if r == [] then prefix else Join(Full(prefix, r[..|r| - 1]), r[|r| - 1].key)
  }

  /** A route from the entries through submaps, no key on the way being hidden, ending at a
      text, or at a map at the deepest level. */
  ghost predicate Route(h: Maps, entries: seq<Entry>, prefix: string, depth: nat, r: seq<Entry>) {
    && r != [] && r[0] in entries && depth + |r| <= MAX_DEPTH + 1
    && (forall i :: 0 <= i < |r| - 1 ==> Step(h, r[i], r[i + 1]))
    && (forall i {:trigger r[..i]} :: 0 < i <= |r| ==> Full(prefix, r[..i]) !in HIDDEN)
    && (r[|r| - 1].val.Submap? ==> depth + |r| == MAX_DEPTH + 1)
  }

  ghost predicate Step(h: Maps, e: Entry, f: Entry) { e.val.Submap? && f in Entries(h, e.val.node) }

  function Shown(prefix: string, r: seq<Entry>): Field
    requires r != []
  {
    Field(Full(prefix, r), if r[|r| - 1].val.Text? then r[|r| - 1].val.text else DEPTH_LIMIT)
  }

  lemma {:induction false} FullFront(prefix: string, e: Entry, r: seq<Entry>)
    ensures Full(prefix, [e] + r) == Full(Join(prefix, e.key), r)
  {
    if r == [] {
      assert [e] + r == [e];
      assert [e][..0] == [];
    } else {
      FullFront(prefix, e, r[..|r| - 1]);
      assert ([e] + r)[..|r|] == [e] + r[..|r| - 1];
    }
  }

  lemma {:induction false} FlattenHas(h: Maps, entries: seq<Entry>, prefix: string, depth: nat, e: Entry, f: Field)
    requires e in entries && f in FlattenOne(h, e, prefix, depth, 0)
    ensures f in Flatten(h, entries, prefix, depth)
    decreases |entries|
  {
    var last := entries[|entries| - 1];
    if e != last {
      assert entries == entries[..|entries| - 1] + [last];
      FlattenHas(h, entries[..|entries| - 1], prefix, depth, e, f);
    }
  }

  lemma {:induction false} FlattenFrom(h: Maps, entries: seq<Entry>, prefix: string, depth: nat, f: Field)
    returns (e: Entry)
    requires f in Flatten(h, entries, prefix, depth)
    ensures e in entries && f in FlattenOne(h, e, prefix, depth, 0)
    decreases |entries|
  {
    var last := entries[|entries| - 1];
    if f in FlattenOne(h, last, prefix, depth, 0) {
      e := last;
    } else {
      e := FlattenFrom(h, entries[..|entries| - 1], prefix, depth, f);
    }
  }

  lemma RouteTail(h: Maps, entries: seq<Entry>, prefix: string, depth: nat, r: seq<Entry>)
    requires Route(h, entries, prefix, depth, r) && |r| > 1
    ensures r[0].val.Submap? && depth < MAX_DEPTH && Join(prefix, r[0].key) !in HIDDEN
    ensures Route(h, Entries(h, r[0].val.node), Join(prefix, r[0].key), depth + 1, r[1..])
    ensures Shown(prefix, r) == Shown(Join(prefix, r[0].key), r[1..])
  {
    assert Step(h, r[0], r[1]);
    var tail, sub := r[1..], Join(prefix, r[0].key);
    assert [r[0]] + tail == r;
    FullFront(prefix, r[0], tail);
    FullFront(prefix, r[0], []);
    assert [r[0]] + [] == r[..1];
    forall i {:trigger tail[..i]} | 0 < i <= |tail| ensures Full(sub, tail[..i]) !in HIDDEN {
      FullFront(prefix, r[0], tail[..i]);
      assert [r[0]] + tail[..i] == r[..i + 1];
    }
    forall i | 0 <= i < |tail| - 1 ensures Step(h, tail[i], tail[i + 1]) {
      assert Step(h, r[i + 1], r[i + 2]);
    }
  }

  lemma RouteOfOne(h: Maps, entries: seq<Entry>, prefix: string, depth: nat, r: seq<Entry>)
    requires Route(h, entries, prefix, depth, r) && |r| == 1
    ensures Shown(prefix, r) in FlattenOne(h, r[0], prefix, depth, 0)
  {
    assert r[..1] == r && r[..0] == [];
    assert Full(prefix, r) == Join(prefix, r[0].key);
    assert Full(prefix, r[..1]) !in HIDDEN;
    assert FlattenOne(h, r[0], prefix, depth, 0) == [Shown(prefix, r)];
  }

  lemma {:induction false} RouteIsShown(h: Maps, entries: seq<Entry>, prefix: string, depth: nat, r: seq<Entry>)
    requires Route(h, entries, prefix, depth, r)
    ensures Shown(prefix, r) in Flatten(h, entries, prefix, depth)
    decreases |r|
  {
    if |r| == 1 {
      RouteOfOne(h, entries, prefix, depth, r);
    } else {
      RouteTail(h, entries, prefix, depth, r);
      RouteIsShown(h, Entries(h, r[0].val.node), Join(prefix, r[0].key), depth + 1, r[1..]);
    }
    FlattenHas(h, entries, prefix, depth, r[0], Shown(prefix, r));
  }

  lemma RouteHead(h: Maps, entries: seq<Entry>, prefix: string, depth: nat, e: Entry, tail: seq<Entry>)
    requires e in entries && e.val.Submap? && depth < MAX_DEPTH && Join(prefix, e.key) !in HIDDEN
    requires Route(h, Entries(h, e.val.node), Join(prefix, e.key), depth + 1, tail)
    ensures Route(h, entries, prefix, depth, [e] + tail)
    ensures Shown(prefix, [e] + tail) == Shown(Join(prefix, e.key), tail)
  {
    var r := [e] + tail;
    FullFront(prefix, e, tail);
    forall i {:trigger r[..i]} | 0 < i <= |r| ensures Full(prefix, r[..i]) !in HIDDEN {
      assert r[..i] == [e] + tail[..i - 1];
      FullFront(prefix, e, tail[..i - 1]);
      if i == 1 {
        assert tail[..0] == [];
      }
    }
    forall i | 0 <= i < |r| - 1 ensures Step(h, r[i], r[i + 1]) {
      if i > 0 {
        assert Step(h, tail[i - 1], tail[i]);
      }
    }
  }

  lemma SingleRoute(h: Maps, entries: seq<Entry>, prefix: string, depth: nat, e: Entry)
    requires e in entries && Join(prefix, e.key) !in HIDDEN && depth <= MAX_DEPTH
            && (e.val.Submap? ==> depth == MAX_DEPTH)
    ensures Route(h, entries, prefix, depth, [e])
    ensures Shown(prefix, [e]) == Field(Join(prefix, e.key), if e.val.Text? then e.val.text else DEPTH_LIMIT)
  {
    var r := [e];
    assert r[..0] == [];
    assert Full(prefix, r) == Join(prefix, e.key);
    assert forall i {:trigger r[..i]} :: 0 < i <= 1 ==> r[..i] == r;
  }

  lemma {:induction false} ShownHasRoute(h: Maps, entries: seq<Entry>, prefix: string, depth: nat, f: Field)
    returns (r: seq<Entry>)
    requires f in Flatten(h, entries, prefix, depth) && depth <= MAX_DEPTH
    ensures Route(h, entries, prefix, depth, r) && Shown(prefix, r) == f
    decreases MAX_DEPTH - depth
  {
    var e := FlattenFrom(h, entries, prefix, depth, f);
    if e.val.Submap? && depth < MAX_DEPTH {
      var tail := ShownHasRoute(h, Entries(h, e.val.node), Join(prefix, e.key), depth + 1, f);
      RouteHead(h, entries, prefix, depth, e, tail);
      r := [e] + tail;
    } else {
      r := [e];
      SingleRoute(h, entries, prefix, depth, e);
    }
  }

  /** Whatever the maps -- cyclic ones included -- exactly the ends of routes are shown. */
  lemma ShownExactly(h: Maps, entries: seq<Entry>, f: Field)
    ensures f in Flatten(h, entries, "", 0) <==> exists r :: Route(h, entries, "", 0, r) && Shown("", r) == f
  {
    if f in Flatten(h, entries, "", 0) {
      var r := ShownHasRoute(h, entries, "", 0, f);
    }
    forall r | Route(h, entries, "", 0, r) && Shown("", r) == f ensures f in Flatten(h, entries, "", 0) {
      RouteIsShown(h, entries, "", 0, r);
    }
  }

  /** The keys of a route with dots between them. */
  function Dots(r: seq<Entry>): string {
    if r == [] then "" else if |r| == 1 then r[0].key else Dots(r[..|r| - 1]) + "." + r[|r| - 1].key
  }

  lemma {:induction false} FullIsDotted(r: seq<Entry>)
    requires r != [] && r[0].key != ""
    ensures Full("", r) == Dots(r) != ""
  {
    var init := r[..|r| - 1];
    if |r| == 1 {
      assert init == [];
    } else {
      FullIsDotted(init);
    }
  }

  lemma DottedIsOpen(k: string, j: string)
    ensures k + "." + j !in {"trace_id", "span_id", "request_id"}
  {
    assert (k + "." + j)[|k|] == '.';
    assert '.' !in "trace_id" && '.' !in "span_id" && '.' !in "request_id";
  }

  /** A text is shown under its key, and a text of a submap under both keys with a dot. */
  lemma ShownUnderItsKeys(h: Maps, entries: seq<Entry>, k: string, m: nat, j: string, s: string)
    requires k != "" && k != "trace_id" && k != "span_id" && k != "request_id"
    ensures Entry(k, Text(s)) in entries ==> Field(k, s) in Flatten(h, entries, "", 0)
    ensures Entry(k, Submap(m)) in entries && m in h && Entry(j, Text(s)) in h[m]
            ==> Field(k + "." + j, s) in Flatten(h, entries, "", 0)
  {
    var flat, deep := [Entry(k, Text(s))], [Entry(k, Submap(m)), Entry(j, Text(s))];
    if flat[0] in entries {
      FullIsDotted(flat);
      assert flat[..1] == flat;
      assert Route(h, entries, "", 0, flat);
      RouteIsShown(h, entries, "", 0, flat);
    }
    if deep[0] in entries && m in h && deep[1] in h[m] {
      DeepRoute(h, entries, k, m, j, s);
      RouteIsShown(h, entries, "", 0, deep);
    }
  }

  lemma DeepRoute(h: Maps, entries: seq<Entry>, k: string, m: nat, j: string, s: string)
    requires k != "" && k != "trace_id" && k != "span_id" && k != "request_id"
    requires Entry(k, Submap(m)) in entries && m in h && Entry(j, Text(s)) in h[m]
    ensures var r := [Entry(k, Submap(m)), Entry(j, Text(s))];
            Route(h, entries, "", 0, r) && Shown("", r) == Field(k + "." + j, s)
  {
    var r := [Entry(k, Submap(m)), Entry(j, Text(s))];
    assert r[..2] == r && r[..1] == [r[0]];
    FullIsDotted(r);
    FullIsDotted(r[..1]);
    DottedIsOpen(k, j);
    assert Step(h, r[0], r[1]);
    forall i {:trigger r[..i]} | 0 < i <= |r| ensures Full("", r[..i]) !in HIDDEN {
      assert i == 1 || i == 2;
    }
  }

  /** A hidden field is never shown, at any level that spells its key. */
  lemma HiddenNeverShown(h: Maps, entries: seq<Entry>, f: Field)
    requires f in Flatten(h, entries, "", 0)
    ensures f.key != "trace_id" && f.key != "span_id" && f.key != "request_id"
  {
    var r := ShownHasRoute(h, entries, "", 0, f);
    assert r[..|r|] == r;
  }

  // ---------------------------------------------------------------------------
  // The writer
  // ---------------------------------------------------------------------------

  /** Section for any way of writing a field. */
  function Spaced(text: Field -> string, fields: seq<Field>, first: bool): string {
    if fields == [] then "" else (if first then "" else " ") + text(fields[0]) + Spaced(text, fields[1..], false)
  }

  lemma {:induction false} SectionIsSpaced(fields: seq<Field>, first: bool)
    ensures Section(fields, first) == Spaced(LeafText, fields, first)
  {
    if fields != [] {
      SectionIsSpaced(fields[1..], false);
    }
  }

  lemma {:induction false} SpacedConcat(text: Field -> string, a: seq<Field>, b: seq<Field>, first: bool)
    ensures Spaced(text, a + b, first) == Spaced(text, a, first) + Spaced(text, b, first && a == [])
  {
    if a == [] {
      assert a + b == b;
    } else {
      SpacedConcat(text, a[1..], b, false);
      assert (a + b)[1..] == a[1..] + b;
      Regroup((if first then "" else " ") + text(a[0]), Spaced(text, a[1..], false), Spaced(text, b, false));
    }
  }

  lemma SectionConcat(a: seq<Field>, b: seq<Field>, first: bool)
    ensures Section(a + b, first) == Section(a, first) + Section(b, first && a == [])
  {
    SectionIsSpaced(a + b, first);
    SectionIsSpaced(a, first);
    SectionIsSpaced(b, first && a == []);
    SpacedConcat(LeafText, a, b, first);
  }

  lemma Regroup(x: string, y: string, z: string)
    ensures x + y + z == x + (y + z)
  {}

  /** What the buffer becomes when more fields follow. */
  lemma SectionFollows(start: string, a: seq<Field>, b: seq<Field>, first: bool)
    ensures start + Section(a, first) + Section(b, first && a == []) == start + Section(a + b, first)
    ensures (first && a == [] && b == []) == (first && a + b == [])
  {
    SectionConcat(a, b, first);
    Regroup(start, Section(a, first), Section(b, first && a == []));
  }

  lemma OneField(start: string, f: Field, first: bool)
    ensures (if first then start else start + " ") + f.key + "=" + ValueText(f.value) == start + Section([f], first)
  {
    var sep, text := if first then "" else " ", ValueText(f.value);
    SectionIsSpaced([f], first);
    assert [f][1..] == [];
    assert Spaced(LeafText, [f], first) == sep + LeafText(f);
    FourParts(start, sep, f.key + "=", text);
    assert start + sep == if first then start else start + " ";
  }

  lemma FourParts(x: string, y: string, z: string, t: string)
    ensures x + y + z + t == x + (y + (z + t))
  {}

  lemma AppendedReadsBack(start: string, fields: seq<Field>)
    ensures GoodKeys(fields) ==> Read((start + Section(fields, true))[|start|..]) == Some(fields)
  {
    if GoodKeys(fields) {
      SectionReadsBack(fields);
      assert (start + Section(fields, true))[|start|..] == Section(fields, true);
    }
  }

  lemma RegroupFields(a: seq<Field>, b: seq<Field>, c: seq<Field>)
    ensures a + b + c == a + (b + c)
    ensures a == [] ==> a + b == b && a + (b + c) == b + c
  {}

  lemma SectionOfNothing(text: string)
    ensures text + Section([], true) == text
  {}

  lemma FlattenSnoc(h: Maps, entries: seq<Entry>, prefix: string, depth: nat, i: nat)
    requires i < |entries|
    ensures Flatten(h, entries[..i + 1], prefix, depth)
            == Flatten(h, entries[..i], prefix, depth) + FlattenOne(h, entries[i], prefix, depth, i + 1)
  {
    assert entries[..i + 1][..i] == entries[..i];
  }

  /** One line under construction: `text` was in the buffer before the section, and
      `written` are the fields appended since. */
  class Line {
    var buf: string
    var first: bool
    ghost var text: string
    ghost var written: seq<Field>

    ghost predicate Valid()
      reads this
    {
      buf == text + Section(written, true) && first == (written == [])
    }

    constructor (before: string)
      ensures Valid() && text == before && written == []
    {
      buf, first := before, true;
      text, written := before, [];
    }

    /** Rune by rune. */
    method WriteEscaped(s: string)
      modifies this`buf
      ensures buf == old(buf) + Escape(s)
    {
      for i := 0 to |s|
        invariant buf == old(buf) + Escape(s[..i])
      {
        assert s[..i + 1][..i] == s[..i];
        Regroup(old(buf), Escape(s[..i]), EscapeChar(s[i]));
        buf := buf + EscapeChar(s[i]);
      }
      assert s[..|s|] == s;
    }

    method WriteConsoleValue(s: string)
      modifies this`buf
      ensures buf == old(buf) + ValueText(s)
    {
      if s == "" {
        buf := buf + "\"\"";
        return;
      }
      if Plain(s) {
        buf := buf + s;
        return;
      }
      buf := buf + "\"";
      WriteEscaped(s);
      buf := buf + "\"";
      Regroup(old(buf), "\"", Escape(s));
      Regroup(old(buf), "\"" + Escape(s), "\"");
    }

    method WriteLeaf(full: string, s: string)
      requires Valid()
      modifies this
      ensures Valid() && text == old(text) && written == old(written) + [Field(full, s)]
    {
      OneField(buf, Field(full, s), first);
      SectionFollows(text, written, [Field(full, s)], true);
      if !first {
        buf := buf + " ";
      }
      first := false;
      buf := buf + full;
      buf := buf + "=";
      WriteConsoleValue(s);
      written := written + [Field(full, s)];
    }

    /** Appends the flattened entries; the separator before each field depends only on
        whether anything was written before it. */
    method WriteFieldsPrefixed(h: Maps, entries: seq<Entry>, prefix: string, depth: nat)
      requires Valid()
      modifies this
      ensures Valid() && text == old(text) && written == old(written) + Flatten(h, entries, prefix, depth)
      decreases MAX_DEPTH + 1 - depth, |entries|, 1
    {
      ghost var done: seq<Field> := [];
      for i := 0 to |entries|
        invariant done == Flatten(h, entries[..i], prefix, depth)
        invariant Valid() && text == old(text) && written == old(written) + done
      {
        ghost var more := FlattenOne(h, entries[i], prefix, depth, i + 1);
        FlattenSnoc(h, entries, prefix, depth, i);
        RegroupFields(old(written), done, more);
        WriteEntry(h, entries[i], prefix, depth, i + 1);
        done := done + more;
      }
      assert entries[..|entries|] == entries;
    }

    method WriteEntry(h: Maps, e: Entry, prefix: string, depth: nat, n: nat)
      requires Valid()
      modifies this
      ensures Valid() && text == old(text) && written == old(written) + FlattenOne(h, e, prefix, depth, n)
      decreases MAX_DEPTH + 1 - depth, n, 0
    {
      var full := Join(prefix, e.key);
      if full in HIDDEN {
        return;
      }
      match e.val
      case Text(s) => WriteLeaf(full, s);
      case Submap(m) =>
        if depth < MAX_DEPTH {
          WriteFieldsPrefixed(h, Entries(h, m), full, depth + 1);
        } else {
          WriteLeaf(full, DEPTH_LIMIT);
        }
    }

    /** The context fields, then the call's own, as one section that reads back. */
    method WriteKeyValues(h: Maps, context: seq<Entry>, call: seq<Entry>)
      requires Valid() && written == []
      modifies this
      ensures Valid() && written == Flatten(h, context, "", 0) + Flatten(h, call, "", 0)
      ensures buf == old(buf) + Section(written, true)
      ensures GoodKeys(written) ==> Read(buf[|old(buf)|..]) == Some(written)
    {
      ghost var before, a, b := buf, Flatten(h, context, "", 0), Flatten(h, call, "", 0);
      RegroupFields([], a, b);
      SectionOfNothing(text);
      WriteFieldsPrefixed(h, context, "", 0);
      WriteFieldsPrefixed(h, call, "", 0);
      AppendedReadsBack(before, written);
    }
  }
}
