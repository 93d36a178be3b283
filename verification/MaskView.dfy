/** The JSON view and the rewrite, told on the world's own cells: what an encoder reaches from
    each kind of value and under which name, and what masking leaves alone. */
module MaskView {
  import opened Common
  import opened MaskKey
  import opened MaskValue
  import opened MaskLeak

  // ---------------------------------------------------------------------------
  // Names
  // ---------------------------------------------------------------------------

  /** The part of a tag before its first comma, and all of it if there is none. */
  lemma {:induction false} TagName(name: string, options: string)
    requires ',' !in name
    ensures CutComma(name) == name && CutComma(name + "," + options) == name
  {
    if name == "" {
      assert name + "," + options == "," + options;
    } else {
      TagName(name[1..], options);
      var tag := name + "," + options;
      assert tag[0] == name[0] && tag[1..] == name[1..] + "," + options;
    }
  }

  /** The tag that gives a field the name n, with options or without. */
  predicate Names(tag: string, n: string) {
    ',' !in n && n != "" && tag != "-" && (tag == n || (n + ",") <= tag)
  }

  /** The tag that leaves a field its own name. */
  predicate Nameless(tag: Option<string>) { tag.None? || tag.value == "" || tag.value[0] == ',' }

  /** What an encoder calls a field: the name its tag gives it, else its own; `-` drops it. */
  lemma MemberName(f: Field, n: string)
    ensures f.tag.Some? && Names(f.tag.value, n) ==> FieldName(f) == n
    ensures Nameless(f.tag) ==> FieldName(f) == f.name
    ensures f.tag == Some("-") ==> !Member(f)
  {
    if f.tag.Some? && Names(f.tag.value, n) {
      var tag := f.tag.value;
      if tag != n {
        TagName(n, tag[|n| + 1..]);
        assert tag == n + "," + tag[|n| + 1..];
      } else {
        TagName(n, "");
      }
    }
  }

  /** A field of its own, and not promoted: exported and not an unnamed embedded struct. */
  lemma OrdinaryMember(f: Field, n: string)
    requires f.exported && f.name != ""
    requires || (f.tag.Some? && Names(f.tag.value, n))
             || (Nameless(f.tag) && n == f.name && !(f.anonymous && f.structType))
    ensures Member(f) && FieldName(f) == n
  {
    MemberName(f, n);
    if f.tag.Some? && Names(f.tag.value, n) {
      assert CutComma(f.tag.value) == n by {
        if f.tag.value != n {
          TagName(n, f.tag.value[|n| + 1..]);
          assert f.tag.value == n + "," + f.tag.value[|n| + 1..];
        } else {
          TagName(n, "");
        }
      }
    }
  }

  /** An unnamed embedded struct, exported or not, is promoted. */
  lemma PromotedEmbed(f: Field)
    requires f.anonymous && f.structType && Nameless(f.tag)
    ensures Flattened(f) && !Member(f)
  {}

  /** Which fields are promoted and which are members: unexported ones that embed no struct
      are neither. */
  lemma MemberExactly(f: Field)
    ensures Flattened(f) <==> f.anonymous && f.structType && Nameless(f.tag)
    ensures Member(f) <==>
              && (f.exported || (f.anonymous && f.structType)) && !(f.anonymous && f.structType && Nameless(f.tag))
              && f.tag != Some("-") && (Nameless(f.tag) ==> f.name != "")
  {}

  /** A member is sensitive for the name it has in JSON and for its name in Go. */
  lemma SensitiveMember(w: World, f: Field, n: string)
    requires Member(f) && FieldName(f) == n
    ensures SuffixHit(w.keys, n) || SuffixHit(w.keys, f.name) ==> HitField(w, f)
    ensures f.tag.None? ==> (HitField(w, f) <==> SuffixHit(w.keys, f.name))
  {}

  /** The characters that corrupt a tag; a comma only separates. */
  const CORRUPTING: string := "\\'\"`"

  ghost predicate Whole(s: string) { forall i :: 0 <= i < |s| ==> s[i] !in CORRUPTING && s[i] != ',' }

  lemma CorruptingAre(c: char)
    ensures c in CORRUPTING <==> c == '\\' || c == '\'' || c == '"' || c == '`'
  {
    assert CORRUPTING[0] == '\\' && CORRUPTING[1] == '\'' && CORRUPTING[2] == '"' && CORRUPTING[3] == '`';
  }

  lemma WholeIsClear(s: string)
    requires Whole(s)
    ensures Clear(s)
  {
    forall i | 0 <= i < |s| ensures !IsReserved(s[i]) {
      CorruptingAre(s[i]);
    }
  }

  /** A tag no encoder reads alike masks its field for what stands on either side of a
      corrupting character. */
  lemma CorruptedTagHits(w: World, f: Field, p: string, c: char, r: string)
    requires f.tag == Some(p + [c] + r) && c in CORRUPTING
    requires (Whole(p) && SuffixHit(w.keys, p)) || (Whole(r) && SuffixHit(w.keys, r))
    ensures HitField(w, f)
  {
    var tag := p + [c] + r;
    CorruptingAre(c);
    assert tag[|p|] == c && tag[0..|p|] == p && tag[|p| + 1..|tag|] == r;
    if Whole(p) && SuffixHit(w.keys, p) {
      WholeIsClear(p);
      WindowCoversPieces(w.keys, tag, 0, |p|);
    } else {
      WholeIsClear(r);
      WindowCoversPieces(w.keys, tag, |p| + 1, |tag|);
    }
  }

  /** Any other tag masks its field for its two names only. */
  lemma SoundTagHits(w: World, f: Field)
    requires f.tag.Some? ==> forall i :: 0 <= i < |f.tag.value| ==> f.tag.value[i] !in CORRUPTING
    ensures HitField(w, f) <==> SuffixHit(w.keys, FieldName(f)) || SuffixHit(w.keys, f.name)
  {
    if f.tag.Some? {
      forall i | 0 <= i < |f.tag.value| ensures IsReserved(f.tag.value[i]) ==> f.tag.value[i] == ',' {
        CorruptingAre(f.tag.value[i]);
      }
    }
  }

  /** How each kind of key is spelled as a member, and when that is sensitive. */
  lemma KeySpelled(w: World, k: Key, s: string)
    ensures KeyName(StringKey(s)) == Some(s) && (HitKey(w, StringKey(s)) <==> SuffixHit(w.keys, s))
    ensures KeyName(NumberKey(Some(s))) == Some(s) && (HitKey(w, NumberKey(Some(s))) <==> SuffixHit(w.keys, s))
    ensures KeyName(TextKey(Some(s), None)) == Some(s)
    ensures HitKey(w, TextKey(Some(s), None)) <==> SuffixHit(w.keys, s)
    ensures SuffixHit(w.keys, s) ==>
              HitKey(w, TextKey(Some(s), RawString(k))) && HitKey(w, TextKey(KeyName(k), Some(s)))
    ensures KeyName(BoxedKey(Some(k))) == KeyName(k) && (HitKey(w, BoxedKey(Some(k))) <==> HitKey(w, k))
    ensures KeyName(OtherKey).None? && KeyName(BoxedKey(None)).None? && KeyName(NumberKey(None)).None?
  {}

  // ---------------------------------------------------------------------------
  // What is reached
  // ---------------------------------------------------------------------------

  /** One step of a path. */
  lemma ExposesStep(w: World, v: Value, i: nat, path: seq<nat>)
    ensures Exposes(w, v, [i] + path) <==>
              && i < |Children(w, v)|
              && ((path == [] && Children(w, v)[i].sensitive) || Exposes(w, Children(w, v)[i].value, path))
  {
    assert ([i] + path)[1..] == path;
  }

  /** Whatever an element of a slice or an array exposes, the whole exposes, and nothing
      else; bytes are encoded as text. */
  lemma ElementsAreReached(w: World, r: nat, es: seq<Value>, i: nat, path: seq<nat>)
    requires r in w.slices && w.slices[r] == es
    ensures Exposes(w, Slice(false, false, r), [i] + path) <==> i < |es| && Exposes(w, es[i], path)
    ensures Exposes(w, Array(false, false, es), [i] + path) <==> i < |es| && Exposes(w, es[i], path)
    ensures Clean(w, Slice(false, true, r)) && Clean(w, Array(false, true, es))
  {
    ExposesStep(w, Slice(false, false, r), i, path);
    ExposesStep(w, Array(false, false, es), i, path);
  }

  /** A pointer and a boxed value expose what they hold. */
  lemma PointeeIsReached(w: World, r: nat, v: Value, path: seq<nat>)
    requires r in w.ptrs && w.ptrs[r].value == v
    ensures Exposes(w, Ptr(false, r), [0] + path) <==> Exposes(w, v, path)
    ensures Exposes(w, Iface(false, Some(v)), [0] + path) <==> Exposes(w, v, path)
  {
    ExposesStep(w, Ptr(false, r), 0, path);
    ExposesStep(w, Iface(false, Some(v)), 0, path);
  }

  /** Every key of the map becomes a member name. */
  predicate AllNamed(es: seq<Entry>) { forall i :: 0 <= i < |es| ==> KeyName(es[i].key).Some? }

  /** A map whose keys all have names exposes an entry for its key, and what is in it. */
  lemma EntriesAreReached(w: World, r: nat, kind: KeyKind, i: nat, path: seq<nat>)
    requires r in w.maps && i < |w.maps[r]| && kind != UnencodableKeys && AllNamed(w.maps[r])
    ensures Exposes(w, Map(false, kind, r), [i]) <==> HitKey(w, w.maps[r][i].key)
    ensures path != [] ==> (Exposes(w, Map(false, kind, r), [i] + path) <==> Exposes(w, w.maps[r][i].value, path))
  {
    assert Encodable(w.maps[r]);
    assert [i] + [] == [i];
    ExposesStep(w, Map(false, kind, r), i, []);
    ExposesStep(w, Map(false, kind, r), i, path);
  }

  /** A map with a key that has no name cannot be encoded: nothing of it is exposed, and it
      is left as it is. */
  lemma UnencodableIsClosed(w: World, r: nat, kind: KeyKind, i: nat, d: nat, seen: set<nat>)
    requires r in w.maps && i < |w.maps[r]| && (kind == UnencodableKeys || KeyName(w.maps[r][i].key).None?)
    ensures Clean(w, Map(false, kind, r)) && (d <= 8 ==> !Changes(w, Map(false, kind, r), d, seen))
  {
    assert w.maps[r][i] in w.maps[r];
    assert Entries(w, Map(false, kind, r)) == [];
  }

  /** An exported member exposes its name, and what is in it. */
  lemma MembersAreReached(w: World, fs: seq<Field>, i: nat, path: seq<nat>)
    requires i < |fs| && Member(fs[i])
    ensures Exposes(w, Struct(false, fs), [i]) <==> HitField(w, fs[i])
    ensures fs[i].exported && path != []
            ==> (Exposes(w, Struct(false, fs), [i] + path) <==> Exposes(w, fs[i].value, path))
  {
    assert [i] + [] == [i];
    ExposesStep(w, Struct(false, fs), i, []);
    ExposesStep(w, Struct(false, fs), i, path);
    assert Children(w, Struct(false, fs))[i] == FieldChild(w, fs[i]);
  }

  /** The fields of a promoted embed, or of an unexported member, are reached through it
      whatever its type serializes itself as; behind a pointer too. */
  lemma EmbedsAreReached(w: World, fs: seq<Field>, i: nat, inner: seq<Field>, path: seq<nat>)
    requires i < |fs| && (Flattened(fs[i]) || (Member(fs[i]) && !fs[i].exported)) && path != []
    requires (exists self :: fs[i].value == Struct(self, inner)) || PointsTo(w, fs[i].value, inner)
    ensures Exposes(w, Struct(false, fs), [i] + path) <==> Exposes(w, Struct(false, inner), path)
  {
    ExposesStep(w, Struct(false, fs), i, path);
    assert Children(w, Struct(false, fs))[i] == FieldChild(w, fs[i]);
    assert Opened(w, fs[i].value) == Struct(false, inner);
  }

  ghost predicate PointsTo(w: World, v: Value, inner: seq<Field>) {
    v.Ptr? && v.ref in w.ptrs && w.ptrs[v.ref].value.Struct? && w.ptrs[v.ref].value.fields == inner
  }

  // ---------------------------------------------------------------------------
  // What is left alone
  // ---------------------------------------------------------------------------

  /** No other member of fs is spelled like field k. */
  ghost predicate OnlySpelling(fs: seq<Field>, k: nat)
    requires k < |fs|
  {
    forall j :: 0 <= j < |fs| && j != k && Member(fs[j]) ==> FieldName(fs[j]) != FieldName(fs[k])
  }

  lemma {:induction false} MergeAllKeeps(level: Members, subs: seq<Members>, n: string)
    requires n in level
    ensures n in MergeAll(level, subs) && MergeAll(level, subs)[n] == level[n]
  {
    if subs != [] {
      MergeAllKeeps(level, subs[..|subs| - 1], n);
    }
  }

  lemma {:induction false} OnlyLastRaw(fs: seq<Field>, i: nat, k: nat)
    requires k < |fs| && i <= |fs| && Member(fs[k]) && fs[k].exported && OnlySpelling(fs, k)
    ensures LastRaw(fs, i, FieldName(fs[k])) == if k < i then k else -1
  {
    if i > 0 {
      OnlyLastRaw(fs, i - 1, k);
    }
  }

  lemma {:induction false} OnlyLastChanged(w: World, fs: seq<Field>, d: nat, seen: set<nat>, i: nat, k: nat)
    requires k < |fs| && i <= |fs| && d <= MAX_DEPTH && Member(fs[k]) && OnlySpelling(fs, k)
    ensures LastChanged(w, fs, d, seen, i, FieldName(fs[k]))
            == if k < i && MemberChanges(w, fs[k], d, seen) then k else -1
  {
    if i > 0 {
      OnlyLastChanged(w, fs, d, seen, i - 1, k);
    }
  }

  /** In a rewritten struct a member of a name of its own stands under that name: as it was
      if nothing in it is rewritten, and in its own masked form otherwise. */
  lemma MemberSurvives(w: World, fs: seq<Field>, d: nat, seen: set<nat>, m: Members, k: nat)
    requires d <= MAX_DEPTH && StructMaskedAs(w, fs, d, seen, Obj(m))
    requires k < |fs| && Member(fs[k]) && fs[k].exported && OnlySpelling(fs, k)
    ensures var n := FieldName(fs[k]);
            && n in m
            && (!MemberChanges(w, fs[k], d, seen) ==> m[n] == Raw(fs[k].value))
            && (MemberChanges(w, fs[k], d, seen) ==> MemberMaskedAs(w, fs[k], d, seen, m[n]))
  {
    var level: Members, subs: seq<Members> :|
      LevelMaskedAs(w, fs, d, seen, level) && |subs| == |fs|
      && (forall i :: 0 <= i < |fs| ==> EmbedMaskedAs(w, fs[i], d, seen, subs[i]))
      && m == MergeAll(level, subs);
    MergeAllKeeps(level, subs, FieldName(fs[k]));
    OnlyLastRaw(fs, |fs|, k);
    OnlyLastChanged(w, fs, d, seen, |fs|, k);
  }

  lemma MaskedList(w: World, v: Value, d: nat, seen: set<nat>, o: Out)
    requires d <= 8 && (v.Slice? || v.Array?) && !v.self && MaskedAs(w, v, d, seen, o)
    ensures ElemsMaskedAs(w, Elems(w, v), d, seen, o)
  {}

  lemma ElementSurvives(w: World, es: seq<Value>, d: nat, seen: set<nat>, o: Out, i: nat)
    requires d <= 8 && ElemsMaskedAs(w, es, d, seen, o) && i < |es|
    ensures o.List? && |o.items| == |es|
    ensures !Changes(w, es[i], d + 1, seen) ==> o.items[i] == Raw(es[i])
    ensures Changes(w, es[i], d + 1, seen) ==> MaskedAs(w, es[i], d + 1, seen, o.items[i])
  {}

  /** The elements of a rewritten slice or array stand in their places, as they were or in
      their own masked form one level deeper. */
  lemma ElementsSurvive(w: World, r: nat, d: nat, seen: set<nat>, o: Out, i: nat)
    requires d <= 8 && r in w.slices && i < |w.slices[r]|
    requires || MaskedAs(w, Slice(false, false, r), d, seen, o)
             || MaskedAs(w, Array(false, false, w.slices[r]), d, seen, o)
    ensures o.List? && |o.items| == |w.slices[r]|
    ensures !Changes(w, w.slices[r][i], d + 1, seen) ==> o.items[i] == Raw(w.slices[r][i])
    ensures Changes(w, w.slices[r][i], d + 1, seen) ==> MaskedAs(w, w.slices[r][i], d + 1, seen, o.items[i])
  {
    var es := w.slices[r];
    if MaskedAs(w, Slice(false, false, r), d, seen, o) {
      MaskedList(w, Slice(false, false, r), d, seen, o);
    } else {
      MaskedList(w, Array(false, false, es), d, seen, o);
    }
    ElementSurvives(w, es, d, seen, o, i);
  }

  /** The same for an entry of a map whose name no other entry has; a sensitive one is
      replaced. */
  lemma EntriesSurvive(w: World, r: nat, kind: KeyKind, d: nat, seen: set<nat>, o: Out, i: nat)
    requires d <= 8 && r in w.maps && i < |w.maps[r]| && kind != UnencodableKeys && AllNamed(w.maps[r])
    requires forall j :: 0 <= j < |w.maps[r]| && j != i ==> KeyName(w.maps[r][j].key) != KeyName(w.maps[r][i].key)
    requires MaskedAs(w, Map(false, kind, r), d, seen, o)
    ensures var e := w.maps[r][i];
            var n := KeyName(e.key).value;
            && o.Obj? && n in o.members
            && (HitKey(w, e.key) ==> o.members[n] == Stars)
            && (!HitKey(w, e.key) && !Changes(w, e.value, d + 1, seen) ==> o.members[n] == Raw(e.value))
            && (!HitKey(w, e.key) && Changes(w, e.value, d + 1, seen)
                ==> MaskedAs(w, e.value, d + 1, seen, o.members[n]))
  {
    assert Encodable(w.maps[r]);
    assert Entries(w, Map(false, kind, r)) == w.maps[r];
    var e := w.maps[r][i];
    var n := KeyName(e.key).value;
    assert e in w.maps[r];
    assert NameMaskedAs(w, w.maps[r], d, seen, n, o.members[n]);
    OnlyEntry(w.maps[r], i, n);
  }

  lemma OnlyEntry(es: seq<Entry>, i: nat, n: string)
    requires i < |es| && KeyName(es[i].key) == Some(n)
    requires forall j :: 0 <= j < |es| && j != i ==> KeyName(es[j].key) != KeyName(es[i].key)
    ensures forall e :: e in es && KeyName(e.key) == Some(n) ==> e == es[i]
  {}

  /** Masking sees through pointers and boxes without going deeper. */
  lemma PointeeSurvives(w: World, r: nat, v: Value, d: nat, seen: set<nat>, o: Out)
    requires d <= 8 && r in w.ptrs && w.ptrs[r].value == v && w.ptrs[r].addr !in seen
    ensures MaskedAs(w, Ptr(false, r), d, seen, o) <==> MaskedAs(w, v, d, seen + {w.ptrs[r].addr}, o)
    ensures MaskedAs(w, Iface(false, Some(v)), d, seen, o) <==> MaskedAs(w, v, d, seen, o)
  {}

  lemma {:induction false} MergeAllAdds(level: Members, subs: seq<Members>, i: nat, n: string)
    requires i < |subs| && n !in level && n in subs[i] && forall j :: 0 <= j < |subs| && j != i ==> n !in subs[j]
    ensures n in MergeAll(level, subs) && MergeAll(level, subs)[n] == subs[i][n]
  {
    if i == |subs| - 1 {
      MergeAllLacks(level, subs[..i], n);
    } else {
      MergeAllAdds(level, subs[..|subs| - 1], i, n);
    }
  }

  lemma {:induction false} MergeAllLacks(level: Members, subs: seq<Members>, n: string)
    requires n !in level && forall j :: 0 <= j < |subs| ==> n !in subs[j]
    ensures n !in MergeAll(level, subs)
  {
    if subs != [] {
      MergeAllLacks(level, subs[..|subs| - 1], n);
    }
  }

  lemma LevelNames(w: World, fs: seq<Field>, d: nat, seen: set<nat>, level: Members, n: string)
    requires d <= MAX_DEPTH && LevelMaskedAs(w, fs, d, seen, level)
    requires forall j :: 0 <= j < |fs| && Member(fs[j]) ==> FieldName(fs[j]) != n
    ensures n !in level
  {}

  /** A promoted embed adds its members -- as they were if nothing in it is rewritten -- under
      every name the level itself does not use. */
  lemma PromotedSurvive(w: World, fs: seq<Field>, d: nat, seen: set<nat>, m: Members, i: nat) returns (sub: Members)
    requires d <= MAX_DEPTH && StructMaskedAs(w, fs, d, seen, Obj(m))
    requires i < |fs| && Flattened(fs[i]) && forall j :: 0 <= j < |fs| && j != i ==> !Flattened(fs[j])
    ensures EmbedMaskedAs(w, fs[i], d, seen, sub)
    ensures forall n :: n in sub && (forall j :: 0 <= j < |fs| && Member(fs[j]) ==> FieldName(fs[j]) != n)
                        ==> n in m && m[n] == sub[n]
  {
    var level: Members, subs: seq<Members> :|
      LevelMaskedAs(w, fs, d, seen, level) && |subs| == |fs|
      && (forall j :: 0 <= j < |fs| ==> EmbedMaskedAs(w, fs[j], d, seen, subs[j]))
      && m == MergeAll(level, subs);
    sub := subs[i];
    forall n | n in sub && (forall j :: 0 <= j < |fs| && Member(fs[j]) ==> FieldName(fs[j]) != n)
      ensures n in m && m[n] == sub[n]
    {
      LevelNames(w, fs, d, seen, level, n);
      MergeAllAdds(level, subs, i, n);
    }
  }

  lemma {:induction false} OnlyRawMember(fs: seq<Field>, i: nat, k: nat)
    requires k < |fs| && i <= |fs| && Member(fs[k]) && fs[k].exported && OnlySpelling(fs, k)
    ensures var n := FieldName(fs[k]);
            (n in RawMembers(fs, i) <==> k < i) && (k < i ==> RawMembers(fs, i)[n] == Raw(fs[k].value))
  {
    if i > 0 {
      OnlyRawMember(fs, i - 1, k);
    }
  }

  /** What an embed that is not rewritten adds: its own members as they are. */
  lemma UntouchedEmbedKeeps(w: World, v: Value, inner: seq<Field>, k: nat)
    requires (exists self :: v == Struct(self, inner)) || PointsTo(w, v, inner)
    requires k < |inner| && Member(inner[k]) && inner[k].exported && OnlySpelling(inner, k)
    ensures var m, n := FlatRaw(w, v, 8), FieldName(inner[k]);
            n in m && m[n] == Raw(inner[k].value)
  {
    assert FieldsOf(w, v) == inner;
    OnlyRawMember(inner, |inner|, k);
    var budget: nat := 8;
    MergeAllKeeps(RawMembers(inner, |inner|), FlatRawEmbeds(w, inner, budget), FieldName(inner[k]));
  }

  lemma {:induction false} RawNames(fs: seq<Field>, i: nat, n: string)
    requires i <= |fs| && forall j :: 0 <= j < |fs| && Member(fs[j]) ==> FieldName(fs[j]) != n
    ensures n !in RawMembers(fs, i)
  {
    if i > 0 {
      RawNames(fs, i - 1, n);
    }
  }

  /** And what it promotes itself, under the names it does not use. */
  lemma NestedEmbedKeeps(w: World, v: Value, fs: seq<Field>, i: nat, n: string, budget: nat)
    requires (exists self :: v == Struct(self, fs)) || PointsTo(w, v, fs)
    requires i < |fs| && Flattened(fs[i]) && forall j :: 0 <= j < |fs| && j != i ==> !Flattened(fs[j])
    requires forall j :: 0 <= j < |fs| && Member(fs[j]) ==> FieldName(fs[j]) != n
    requires budget > 0 && n in FlatRaw(w, fs[i].value, budget - 1)
    ensures n in FlatRaw(w, v, budget) && FlatRaw(w, v, budget)[n] == FlatRaw(w, fs[i].value, budget - 1)[n]
  {
    assert FieldsOf(w, v) == fs;
    RawNames(fs, |fs|, n);
    MergeAllAdds(RawMembers(fs, |fs|), FlatRawEmbeds(w, fs, budget), i, n);
  }

  // ---------------------------------------------------------------------------
  // Where the walk stops
  // ---------------------------------------------------------------------------

  /** Nine levels down everything that is not a leaf is replaced. */
  lemma DeepIsCut(w: World, v: Value, d: nat, seen: set<nat>, o: Out)
    requires d > 8 && !v.Scalar? && !v.self
    ensures Changes(w, v, d, seen) && (MaskedAs(w, v, d, seen, o) <==> o == Stars)
  {}

  /** The path passes a member that cannot be handed back because it is not exported. */
  ghost predicate MeetsUnexported(w: World, v: Value, path: seq<nat>)
    decreases |path|
  {
    && path != [] && path[0] < |Children(w, v)|
    && (|| (v.Struct? && path[0] < |v.fields| && Member(v.fields[path[0]]) && !v.fields[path[0]].exported)
        || MeetsUnexported(w, Children(w, v)[path[0]].value, path[1..]))
  }

  /** Without pointers that lead back, the walk stops only more than eight levels down or at
      such a member. */
  lemma {:induction false} StopsOnlyDeep(w: World, v: Value, d: nat, seen: set<nat>, path: seq<nat>)
    requires w.ptrs == map[] && Stops(w, v, d, seen, path)
    ensures d + |path| > 8 || MeetsUnexported(w, v, path)
    decreases |path|
  {
    if d <= 8 && !(v.Struct? && FieldStops(w, v.fields[path[0]], seen)) {
      StopsOnlyDeep(w, Children(w, v)[path[0]].value, NextDepth(v, path[0], d), NextSeen(w, v, path[0], seen),
                    path[1..]);
    }
  }
}
