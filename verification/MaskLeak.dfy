/** What the masking relation guarantees: nothing leaks, and nothing is rewritten
    without a reason. */
module MaskLeak {
  import opened Common
  import opened MaskKey
  import opened MaskValue

  // ---------------------------------------------------------------------------
  // An untouched value reaches no blacklisted name
  // ---------------------------------------------------------------------------

  lemma {:induction false} QuietIsClean(w: World, v: Value, d: nat, seen: set<nat>, path: seq<nat>)
    requires !Changes(w, v, d, seen)
    ensures !Exposes(w, v, path)
    decreases |path|, 1
  {
    if path != [] && path[0] < |Children(w, v)| {
      match v
      case Ptr(_, r) =>
        QuietIsClean(w, w.ptrs[r].value, d, seen + {w.ptrs[r].addr}, path[1..]);
      case Iface(_, b) =>
        QuietIsClean(w, b.value, d, seen, path[1..]);
      case Struct(_, fs) =>
        QuietStruct(w, fs, d, seen, path);
      case Map(_, _, _) =>
        var e := Entries(w, v)[path[0]];
        assert !EntryChanges(w, e, d, seen);
        QuietIsClean(w, e.value, d + 1, seen, path[1..]);
      case Array(_, _, _) =>
        QuietIsClean(w, Elems(w, v)[path[0]], d + 1, seen, path[1..]);
      case Slice(_, _, _) =>
        QuietIsClean(w, Elems(w, v)[path[0]], d + 1, seen, path[1..]);
    }
  }

  lemma {:induction false} QuietStruct(w: World, fs: seq<Field>, d: nat, seen: set<nat>, path: seq<nat>)
    requires d <= MAX_DEPTH && !StructChanges(w, fs, d, seen)
    ensures !Exposes(w, Struct(false, fs), path)
    decreases |path|, 0
  {
    if path != [] && path[0] < |fs| {
      var f := fs[path[0]];
      assert !MemberChanges(w, f, d, seen) && !EmbedChanges(w, f, d, seen);
      if Member(f) {
        QuietIsClean(w, f.value, d + 1, seen, path[1..]);
      } else if Flattened(f) {
        QuietStruct(w, FieldsOf(w, f.value), d, Inside(w, f.value, seen), path[1..]);
      }
    }
  }

  lemma Untouched(w: World, v: Value, d: nat, seen: set<nat>)
    requires !Changes(w, v, d, seen)
    ensures Clean(w, v)
  {
    forall path ensures !Exposes(w, v, path) { QuietIsClean(w, v, d, seen, path); }
  }

  // ---------------------------------------------------------------------------
  // A rewritten value discloses only what is reached past no blacklisted name
  // ---------------------------------------------------------------------------

  /** Every original value inside o reaches no blacklisted name, was reached from v past
      none, and every blacklisted name holds only the placeholder. */
  ghost predicate Justified(w: World, v: Value, o: Out)
    decreases o, 0
  {
    match o
    case Stars => true
    case Null => true
    case Raw(x) => Clean(w, x) && exists path :: Openly(w, v, path, x)
    case Obj(m) => forall n :: n in m ==> JustifiedName(w, v, n, m[n])
    case List(items) => forall i :: 0 <= i < |items| ==> Justified(w, v, items[i])
  }

  ghost predicate JustifiedName(w: World, v: Value, n: string, o: Out)
    decreases o, 1
  {
    Justified(w, v, o) && (SuffixHit(w.keys, n) ==> o == Stars)
  }

  /** What is justified for a child that hides behind no blacklisted name is justified
      for its parent. */
  lemma {:induction false} Lift(w: World, v: Value, i: nat, o: Out)
    requires i < |Children(w, v)| && !Children(w, v)[i].sensitive
    requires Justified(w, Children(w, v)[i].value, o)
    ensures Justified(w, v, o)
    decreases o
  {
    var c := Children(w, v)[i].value;
    match o
    case Stars =>
    case Null =>
    case Raw(x) =>
      var path :| Openly(w, c, path, x);
      assert ([i] + path)[1..] == path;
      assert Openly(w, v, [i] + path, x);
    case Obj(m) =>
      forall n | n in m ensures JustifiedName(w, v, n, m[n]) {
        assert JustifiedName(w, c, n, m[n]);
        Lift(w, v, i, m[n]);
      }
    case List(items) =>
      forall k | 0 <= k < |items| ensures Justified(w, v, items[k]) {
        Lift(w, v, i, items[k]);
      }
  }

  /** An original value handed on in place of an untouched child. */
  lemma HandedOn(w: World, v: Value, i: nat, d: nat, seen: set<nat>)
    requires i < |Children(w, v)| && !Children(w, v)[i].sensitive
    requires !Changes(w, Children(w, v)[i].value, d, seen)
    ensures Justified(w, v, Raw(Children(w, v)[i].value))
  {
    var c := Children(w, v)[i].value;
    Untouched(w, c, d, seen);
    assert Openly(w, c, [], c);
    Lift(w, v, i, Raw(c));
  }

  lemma {:induction false} MergeAllOrigin(base: Members, subs: seq<Members>, n: string) returns (i: int)
    requires n in MergeAll(base, subs)
    ensures -1 <= i < |subs|
    ensures i < 0 ==> n in base && MergeAll(base, subs)[n] == base[n]
    ensures i >= 0 ==> n in subs[i] && MergeAll(base, subs)[n] == subs[i][n]
  {
    i := -1;
    if subs != [] {
      if n in MergeAll(base, subs[..|subs| - 1]) {
        i := MergeAllOrigin(base, subs[..|subs| - 1], n);
      } else {
        i := |subs| - 1;
      }
    }
  }

  lemma {:induction false} RawMembersOrigin(fs: seq<Field>, i: nat, n: string) returns (k: nat)
    requires i <= |fs| && n in RawMembers(fs, i)
    ensures k < i && Member(fs[k]) && fs[k].exported && FieldName(fs[k]) == n
    ensures RawMembers(fs, i)[n] == Raw(fs[k].value)
  {
    if n in RawMembers(fs, i - 1) {
      k := RawMembersOrigin(fs, i - 1, n);
    } else {
      k := i - 1;
    }
  }

  /** A member of a struct that masking left alone. */
  lemma QuietMember(w: World, fs: seq<Field>, k: nat, d: nat, seen: set<nat>)
    requires d <= MAX_DEPTH && k < |fs| && Member(fs[k]) && !MemberChanges(w, fs[k], d, seen)
    ensures JustifiedName(w, Struct(false, fs), FieldName(fs[k]), Raw(fs[k].value))
  {
    assert Children(w, Struct(false, fs))[k] == FieldChild(w, fs[k]);
    HandedOn(w, Struct(false, fs), k, d + 1, seen);
  }

  /** Copying an untouched struct as it is discloses nothing either. */
  lemma {:induction false} FlatRawJustified(w: World, v: Value, d: nat, seen: set<nat>, budget: nat, n: string)
    requires d <= MAX_DEPTH && !StructChanges(w, FieldsOf(w, v), d, seen)
    requires n in FlatRaw(w, v, budget)
    ensures JustifiedName(w, Opened(w, v), n, FlatRaw(w, v, budget)[n])
    decreases budget
  {
    var fs := FieldsOf(w, v);
    var subs := FlatRawEmbeds(w, fs, budget);
    var i := MergeAllOrigin(RawMembers(fs, |fs|), subs, n);
    if i < 0 {
      var k := RawMembersOrigin(fs, |fs|, n);
      QuietMember(w, fs, k, d, seen);
    } else {
      var f := fs[i];
      assert !EmbedChanges(w, f, d, seen);
      FlatRawJustified(w, f.value, d, Inside(w, f.value, seen), budget - 1, n);
      assert Children(w, Opened(w, v))[i] == FieldChild(w, f);
      Lift(w, Opened(w, v), i, subs[i][n]);
    }
  }

  lemma {:induction false} NoneChanged(w: World, fs: seq<Field>, d: nat, seen: set<nat>, i: nat, n: string, k: nat)
    requires k < i <= |fs| && d <= MAX_DEPTH && FieldName(fs[k]) == n
    requires LastChanged(w, fs, d, seen, i, n) < 0
    ensures !MemberChanges(w, fs[k], d, seen)
    decreases i
  {
    if k < i - 1 { NoneChanged(w, fs, d, seen, i - 1, n, k); }
  }

  lemma {:induction false} JustValue(w: World, v: Value, d: nat, seen: set<nat>, o: Out)
    requires MaskedAs(w, v, d, seen, o)
    ensures Justified(w, v, o)
    decreases Left(d), Addrs(w) - seen, v, 1
  {
    if d <= MAX_DEPTH {
      match v
      case Scalar(_) =>
      case Ptr(_, r) =>
        var p := w.ptrs[r];
        if p.addr !in seen {
          JustValue(w, p.value, d, seen + {p.addr}, o);
          Lift(w, v, 0, o);
        }
      case Iface(_, b) =>
        JustValue(w, b.value, d, seen, o);
        Lift(w, v, 0, o);
      case Struct(_, fs) =>
        JustStruct(w, fs, d, seen, o);
      case Map(_, _, _) =>
        forall n | n in o.members ensures JustifiedName(w, v, n, o.members[n]) {
          JustEntry(w, v, d, seen, n, o.members[n]);
        }
      case Array(_, _, _) =>
        forall i | 0 <= i < |o.items| ensures Justified(w, v, o.items[i]) { JustElem(w, v, d, seen, i, o.items[i]); }
      case Slice(_, _, _) =>
        forall i | 0 <= i < |o.items| ensures Justified(w, v, o.items[i]) { JustElem(w, v, d, seen, i, o.items[i]); }
    }
  }

  lemma {:induction false} JustElem(w: World, v: Value, d: nat, seen: set<nat>, i: nat, o: Out)
    requires d <= MAX_DEPTH && !Closed(v) && (v.Array? || v.Slice?) && i < |Elems(w, v)|
    requires if Changes(w, Elems(w, v)[i], d + 1, seen) then MaskedAs(w, Elems(w, v)[i], d + 1, seen, o)
             else o == Raw(Elems(w, v)[i])
    ensures Justified(w, v, o)
    decreases Left(d), Addrs(w) - seen, v, 0
  {
    var e := Elems(w, v)[i];
    assert Children(w, v)[i] == Child(false, e);
    if Changes(w, e, d + 1, seen) {
      JustValue(w, e, d + 1, seen, o);
      Lift(w, v, i, o);
    } else {
      HandedOn(w, v, i, d + 1, seen);
    }
  }

  lemma {:induction false} JustEntry(w: World, v: Value, d: nat, seen: set<nat>, n: string, o: Out)
    requires d <= MAX_DEPTH && !Closed(v) && v.Map?
    requires NameMaskedAs(w, Entries(w, v), d, seen, n, o)
    ensures JustifiedName(w, v, n, o)
    decreases Left(d), Addrs(w) - seen, v, 0
  {
    var es := Entries(w, v);
    var e :| e in es && KeyName(e.key) == Some(n)
      && if EntryChanges(w, e, d, seen) then EntryMaskedAs(w, e, d, seen, o)
         else o == Raw(e.value) && QuietName(w, es, d, seen, n);
    var i :| 0 <= i < |es| && es[i] == e;
    assert Children(w, v)[i] == Child(HitKey(w, e.key), e.value);
    if !EntryChanges(w, e, d, seen) {
      HandedOn(w, v, i, d + 1, seen);
    } else if !HitKey(w, e.key) {
      JustValue(w, e.value, d + 1, seen, o);
      Lift(w, v, i, o);
    }
  }

  lemma {:induction false} JustStruct(w: World, fs: seq<Field>, d: nat, seen: set<nat>, o: Out)
    requires d <= MAX_DEPTH && StructMaskedAs(w, fs, d, seen, o)
    ensures Justified(w, Struct(false, fs), o)
    decreases Left(d), Addrs(w) - seen, fs, 2
  {
    var v := Struct(false, fs);
    var level: Members, subs: seq<Members> :|
      && LevelMaskedAs(w, fs, d, seen, level)
      && |subs| == |fs|
      && (forall i :: 0 <= i < |fs| ==> EmbedMaskedAs(w, fs[i], d, seen, subs[i]))
      && o.members == MergeAll(level, subs);
    forall n | n in o.members ensures JustifiedName(w, v, n, o.members[n]) {
      JustStructName(w, fs, d, seen, level, subs, n);
    }
  }

  lemma {:induction false} JustStructName(w: World, fs: seq<Field>, d: nat, seen: set<nat>, level: Members,
                                          subs: seq<Members>, n: string)
    requires d <= MAX_DEPTH && LevelMaskedAs(w, fs, d, seen, level) && |subs| == |fs|
    requires forall i :: 0 <= i < |fs| ==> EmbedMaskedAs(w, fs[i], d, seen, subs[i])
    requires n in MergeAll(level, subs)
    ensures JustifiedName(w, Struct(false, fs), n, MergeAll(level, subs)[n])
    decreases Left(d), Addrs(w) - seen, fs, 1, 1
  {
    var v := Struct(false, fs);
    var i := MergeAllOrigin(level, subs, n);
    if i < 0 {
      JustLevel(w, fs, d, seen, level, n);
    } else {
      JustEmbed(w, fs[i], d, seen, subs[i], n);
      assert Children(w, v)[i] == FieldChild(w, fs[i]);
      Lift(w, v, i, subs[i][n]);
    }
  }

  lemma {:induction false} JustLevel(w: World, fs: seq<Field>, d: nat, seen: set<nat>, level: Members, n: string)
    requires d <= MAX_DEPTH && LevelMaskedAs(w, fs, d, seen, level) && n in level
    ensures JustifiedName(w, Struct(false, fs), n, level[n])
    decreases Left(d), Addrs(w) - seen, fs, 1, 0
  {
    var c := LastChanged(w, fs, d, seen, |fs|, n);
    if c >= 0 {
      JustMember(w, fs, c, d, seen, level[n]);
    } else {
      var k := LastRaw(fs, |fs|, n);
      NoneChanged(w, fs, d, seen, |fs|, n, k);
      QuietMember(w, fs, k, d, seen);
    }
  }

  lemma {:induction false} JustMember(w: World, fs: seq<Field>, k: nat, d: nat, seen: set<nat>, o: Out)
    requires d <= MAX_DEPTH && k < |fs| && Member(fs[k]) && MemberMaskedAs(w, fs[k], d, seen, o)
    ensures JustifiedName(w, Struct(false, fs), FieldName(fs[k]), o)
    decreases Left(d), Addrs(w) - seen, fs, 0
  {
    var f := fs[k];
    if !HitField(w, f) {
      if f.exported {
        JustValue(w, f.value, d + 1, seen, o);
      } else {
        JustUnexported(w, f.value, d + 1, seen, o);
      }
      LiftMember(w, fs, k, o);
    }
  }

  lemma LiftMember(w: World, fs: seq<Field>, k: nat, o: Out)
    requires k < |fs| && Member(fs[k]) && !HitField(w, fs[k]) && Justified(w, FieldChild(w, fs[k]).value, o)
    ensures JustifiedName(w, Struct(false, fs), FieldName(fs[k]), o)
  {
    assert Children(w, Struct(false, fs))[k] == FieldChild(w, fs[k]);
    Lift(w, Struct(false, fs), k, o);
  }

  lemma {:induction false} JustUnexported(w: World, v: Value, d: nat, seen: set<nat>, o: Out)
    requires UnexportedMaskedAs(w, v, d, seen, o)
    ensures Justified(w, Opened(w, v), o)
    decreases Left(d), Addrs(w) - seen, v, 2
  {
    if d <= MAX_DEPTH {
      match v
      case Ptr(_, r) =>
        if r in w.ptrs && w.ptrs[r].addr !in seen {
          var p := w.ptrs[r];
          JustRebuilt(w, p.value, d, seen + {p.addr}, o);
          assert p.value.Struct? ==> Opened(w, p.value) == Opened(w, v);
        }
      case _ =>
        JustRebuilt(w, v, d, seen, o);
    }
  }

  lemma {:induction false} JustRebuilt(w: World, v: Value, d: nat, seen: set<nat>, o: Out)
    requires d <= MAX_DEPTH && RebuiltAs(w, v, d, seen, o)
    ensures v.Struct? ==> Justified(w, Opened(w, v), o)
    ensures !v.Struct? ==> o == Stars
    decreases Left(d), Addrs(w) - seen, v, 1
  {
    if v.Struct? {
      if StructChanges(w, v.fields, d, seen) {
        JustStruct(w, v.fields, d, seen, o);
      } else {
        forall n | n in o.members ensures JustifiedName(w, Opened(w, v), n, o.members[n]) {
          FlatRawJustified(w, v, d, seen, MAX_DEPTH, n);
        }
      }
    }
  }

  lemma {:induction false} JustEmbed(w: World, f: Field, d: nat, seen: set<nat>, sub: Members, n: string)
    requires d <= MAX_DEPTH && EmbedMaskedAs(w, f, d, seen, sub) && n in sub
    ensures Flattened(f) && JustifiedName(w, Opened(w, f.value), n, sub[n])
    decreases Left(d), Addrs(w) - seen, f, 3
  {
    var inner := Inside(w, f.value, seen);
    if !EmbedChanges(w, f, d, seen) {
      FlatRawJustified(w, f.value, d, inner, MAX_DEPTH, n);
    } else if f.value.Struct? {
      JustStruct(w, f.value.fields, d, seen, Obj(sub));
    } else if w.ptrs[f.value.ref].addr !in seen {
      JustStruct(w, FieldsOf(w, f.value), d, inner, Obj(sub));
    }
  }

  // ---------------------------------------------------------------------------
  // A value is rewritten exactly when there is a reason to
  // ---------------------------------------------------------------------------

  function NextDepth(v: Value, i: nat, d: nat): nat {
    match v
    case Ptr(_, _) => d
    case Iface(_, _) => d
    case Struct(_, fs) => if i < |fs| && Flattened(fs[i]) then d else d + 1
    case _ => d + 1
  }

  function NextSeen(w: World, v: Value, i: nat, seen: set<nat>): set<nat> {
    match v
    case Ptr(_, _) => Inside(w, v, seen)
    case Struct(_, fs) => if i < |fs| && Flattened(fs[i]) then Inside(w, fs[i].value, seen) else seen
    case _ => seen
  }

  /** The walk cannot pass field f: an unexported named embed, or an embedded pointer to
      something the walk is already inside. */
  predicate FieldStops(w: World, f: Field, seen: set<nat>) {
    || (Member(f) && !f.exported)
    || (Flattened(f) && Blocked(w, f.value, seen))
  }

  /** Following `path`, the walk runs into its depth bound, into an address it is already
      inside, or into a field it cannot hand back. */
  ghost predicate Stops(w: World, v: Value, d: nat, seen: set<nat>, path: seq<nat>)
    decreases |path|
  {
    && !Closed(v)
    && (|| d > MAX_DEPTH
        || Blocked(w, v, seen)
        || (&& path != []
            && path[0] < |Children(w, v)|
            && (|| (v.Struct? && FieldStops(w, v.fields[path[0]], seen))
                || Stops(w, Children(w, v)[path[0]].value, NextDepth(v, path[0], d),
                         NextSeen(w, v, path[0], seen), path[1..]))))
  }

  lemma {:induction false} QuietNeverStops(w: World, v: Value, d: nat, seen: set<nat>, path: seq<nat>)
    requires !Changes(w, v, d, seen)
    ensures !Stops(w, v, d, seen, path)
    decreases |path|, 1
  {
    if !Closed(v) && path != [] && path[0] < |Children(w, v)| {
      match v
      case Ptr(_, r) =>
        QuietNeverStops(w, w.ptrs[r].value, d, Inside(w, v, seen), path[1..]);
      case Iface(_, b) =>
        QuietNeverStops(w, b.value, d, seen, path[1..]);
      case Struct(_, fs) =>
        QuietStructNeverStops(w, fs, d, seen, path);
      case Map(_, _, _) =>
        var e := Entries(w, v)[path[0]];
        assert !EntryChanges(w, e, d, seen);
        QuietNeverStops(w, e.value, d + 1, seen, path[1..]);
      case Array(_, _, _) =>
        QuietNeverStops(w, Elems(w, v)[path[0]], d + 1, seen, path[1..]);
      case Slice(_, _, _) =>
        QuietNeverStops(w, Elems(w, v)[path[0]], d + 1, seen, path[1..]);
    }
  }

  lemma {:induction false} QuietStructNeverStops(w: World, fs: seq<Field>, d: nat, seen: set<nat>, path: seq<nat>)
    requires d <= MAX_DEPTH && !StructChanges(w, fs, d, seen)
    ensures !Stops(w, Struct(false, fs), d, seen, path)
    decreases |path|, 0
  {
    if path != [] && path[0] < |fs| {
      var f := fs[path[0]];
      assert !MemberChanges(w, f, d, seen) && !EmbedChanges(w, f, d, seen);
      if Member(f) {
        QuietNeverStops(w, f.value, d + 1, seen, path[1..]);
      } else if Flattened(f) {
        QuietStructNeverStops(w, FieldsOf(w, f.value), d, Inside(w, f.value, seen), path[1..]);
      }
    }
  }

  ghost predicate Reason(w: World, v: Value, d: nat, seen: set<nat>, path: seq<nat>) {
    Exposes(w, v, path) || Stops(w, v, d, seen, path)
  }

  lemma ReasonThrough(w: World, v: Value, i: nat, d: nat, seen: set<nat>, path: seq<nat>)
    requires !Closed(v) && i < |Children(w, v)|
    ensures Reason(w, Children(w, v)[i].value, NextDepth(v, i, d), NextSeen(w, v, i, seen), path)
            ==> Reason(w, v, d, seen, [i] + path)
  {
    assert ([i] + path)[1..] == path;
  }

  lemma {:induction false} ReasonOf(w: World, v: Value, d: nat, seen: set<nat>) returns (path: seq<nat>)
    requires Changes(w, v, d, seen)
    ensures Reason(w, v, d, seen, path)
    decreases Left(d), Addrs(w) - seen, v, 1
  {
    path := [];
    if d <= MAX_DEPTH && !Blocked(w, v, seen) {
      match v
      case Scalar(_) =>
      case Ptr(_, r) =>
        path := ReasonOf(w, w.ptrs[r].value, d, Inside(w, v, seen));
        ReasonThrough(w, v, 0, d, seen, path);
        path := [0] + path;
      case Iface(_, b) =>
        path := ReasonOf(w, b.value, d, seen);
        ReasonThrough(w, v, 0, d, seen, path);
        path := [0] + path;
      case Struct(_, fs) =>
        path := ReasonOfStruct(w, fs, d, seen);
      case Map(_, _, _) =>
        path := ReasonOfEntry(w, v, d, seen);
      case Array(_, _, _) =>
        path := ReasonOfElem(w, v, d, seen);
      case Slice(_, _, _) =>
        path := ReasonOfElem(w, v, d, seen);
    }
  }

  lemma {:induction false} ReasonOfElem(w: World, v: Value, d: nat, seen: set<nat>) returns (path: seq<nat>)
    requires d <= MAX_DEPTH && !Closed(v) && (v.Array? || v.Slice?) && ElemsChange(w, Elems(w, v), d, seen)
    ensures Reason(w, v, d, seen, path)
    decreases Left(d), Addrs(w) - seen, v, 0
  {
    var es := Elems(w, v);
    var i :| 0 <= i < |es| && Changes(w, es[i], d + 1, seen);
    path := ReasonOf(w, es[i], d + 1, seen);
    assert Children(w, v)[i] == Child(false, es[i]);
    ReasonThrough(w, v, i, d, seen, path);
    path := [i] + path;
  }

  lemma {:induction false} ReasonOfEntry(w: World, v: Value, d: nat, seen: set<nat>) returns (path: seq<nat>)
    requires d <= MAX_DEPTH && !Closed(v) && v.Map? && EntriesChange(w, Entries(w, v), d, seen)
    ensures Reason(w, v, d, seen, path)
    decreases Left(d), Addrs(w) - seen, v, 0
  {
    var es := Entries(w, v);
    var e :| e in es && EntryChanges(w, e, d, seen);
    var i :| 0 <= i < |es| && es[i] == e;
    assert Children(w, v)[i] == Child(HitKey(w, e.key), e.value);
    if HitKey(w, e.key) {
      path := [i];
      assert Exposes(w, v, path);
    } else {
      path := ReasonOf(w, e.value, d + 1, seen);
      ReasonThrough(w, v, i, d, seen, path);
      path := [i] + path;
    }
  }

  lemma {:induction false} ReasonOfStruct(w: World, fs: seq<Field>, d: nat, seen: set<nat>) returns (path: seq<nat>)
    requires d <= MAX_DEPTH && StructChanges(w, fs, d, seen)
    ensures Reason(w, Struct(false, fs), d, seen, path)
    decreases Left(d), Addrs(w) - seen, fs, 0
  {
    var i :| 0 <= i < |fs| && (MemberChanges(w, fs[i], d, seen) || EmbedChanges(w, fs[i], d, seen));
    path := ReasonOfField(w, fs, i, d, seen);
  }

  lemma {:induction false} ReasonOfField(w: World, fs: seq<Field>, i: nat, d: nat, seen: set<nat>)
    returns (path: seq<nat>)
    requires d <= MAX_DEPTH && i < |fs|
    requires MemberChanges(w, fs[i], d, seen) || EmbedChanges(w, fs[i], d, seen)
    ensures Reason(w, Struct(false, fs), d, seen, path)
    decreases Left(d), Addrs(w) - seen, fs[i], 5
  {
    var v, f := Struct(false, fs), fs[i];
    assert Children(w, v)[i] == FieldChild(w, f);
    if Member(f) && HitField(w, f) {
      path := [i];
      assert Exposes(w, v, path);
    } else if FieldStops(w, f, seen) {
      path := [i];
      assert Stops(w, v, d, seen, path);
    } else {
      if Member(f) {
        path := ReasonOf(w, f.value, d + 1, seen);
      } else {
        path := ReasonOfStruct(w, FieldsOf(w, f.value), d, Inside(w, f.value, seen));
      }
      ReasonThrough(w, v, i, d, seen, path);
      path := [i] + path;
    }
  }

  /** Masking rewrites a value exactly when some path from it arrives at a blacklisted
      name or at a place the walk refuses to enter. */
  lemma RewrittenIffReason(w: World, v: Value, d: nat, seen: set<nat>)
    ensures Changes(w, v, d, seen) <==> exists path :: Reason(w, v, d, seen, path)
  {
    if Changes(w, v, d, seen) {
      var path := ReasonOf(w, v, d, seen);
    } else {
      forall path ensures !Reason(w, v, d, seen, path) {
        QuietIsClean(w, v, d, seen, path);
        QuietNeverStops(w, v, d, seen, path);
      }
    }
  }

  /** On a value the walk never refuses, rewriting happens exactly for blacklisted names. */
  lemma RewrittenIffExposed(w: World, v: Value, d: nat, seen: set<nat>)
    requires forall path :: !Stops(w, v, d, seen, path)
    ensures Changes(w, v, d, seen) <==> !Clean(w, v)
  {
    RewrittenIffReason(w, v, d, seen);
    if Changes(w, v, d, seen) {
      var path := ReasonOf(w, v, d, seen);
    } else {
      Untouched(w, v, d, seen);
    }
  }
}
