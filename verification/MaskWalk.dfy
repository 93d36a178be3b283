/** The walk itself: the mutually recursive methods that rewrite a value, copying on the
    first hit, with one set of addresses shared along the recursion path. */
module MaskWalk {
  import opened Common
  import opened MaskKey
  import opened MaskValue
  import opened MaskLeak

  /** Map iteration order is unspecified: every call may see another permutation. */
  method Range(es: seq<Entry>) returns (order: seq<Entry>)
    ensures |order| == |es|
    ensures forall e :: e in order <==> e in es
  {
    order := es;
  }

  class Walk {
    const w: World
    var seen: set<nat>

    constructor (w: World)
      ensures this.w == w && seen == {}
    {
      this.w := w;
      seen := {};
    }

    method HitFieldName(f: Field, name: string) returns (hit: bool)
      requires name == FieldName(f)
      ensures hit == HitField(w, f)
    {
      hit := Hit(w.keys, name);
      if hit {
        return;
      }
      if name != f.name {
        hit := Hit(w.keys, f.name);
        if hit {
          return;
        }
      }
      var tag := if f.tag.Some? then f.tag.value else "";
      if Corrupted(tag) {
        hit := HitWindow(w.keys, ReplaceReserved(tag));
      }
    }

    method HitMapKey(k: Key, name: string) returns (hit: bool)
      requires KeyName(k) == Some(name)
      ensures hit == HitKey(w, k)
    {
      hit := Hit(w.keys, name);
      if hit || RawString(k).None? {
        return;
      }
      var raw := RawString(k).value;
      if raw != name {
        hit := Hit(w.keys, raw);
      }
    }

    method MaskValue(v: Value, d: nat) returns (o: Out, changed: bool)
      modifies this
      ensures seen == old(seen)
      ensures changed == Changes(w, v, d, seen)
      ensures changed ==> MaskedAs(w, v, d, seen, o)
      decreases Left(d), Addrs(w) - seen, v, 1
    {
      o, changed := Null, false;
      if Closed(v) {
        return;
      }
      if d > MAX_DEPTH {
        return Stars, true;
      }
      match v
      case Ptr(_, r) =>
        if r !in w.ptrs {
          return;
        }
        var addr := w.ptrs[r].addr;
        if addr in seen {
          return Stars, true;
        }
        ghost var path := seen;
        seen := seen + {addr};
        o, changed := MaskValue(w.ptrs[r].value, d);
        seen := seen - {addr};
        assert seen == path;
      case Iface(_, b) =>
        if b.Some? {
          o, changed := MaskValue(b.value, d);
        }
      case Struct(_, fs) =>
        var m: Members;
        m, changed := MaskStruct(fs, d);
        o := Obj(m);
      case Map(_, kind, r) =>
        if r in w.maps && kind != UnencodableKeys {
          var m: Members;
          m, changed := MaskMap(w.maps[r], d);
          o := Obj(m);
        }
      case Array(_, _, _) =>
        var items: seq<Out>;
        items, changed := MaskSlice(Elems(w, v), d);
        o := List(items);
      case Slice(_, _, _) =>
        var items: seq<Out>;
        items, changed := MaskSlice(Elems(w, v), d);
        o := List(items);
    }

    method MaskSlice(es: seq<Value>, d: nat) returns (out: seq<Out>, changed: bool)
      requires d <= MAX_DEPTH
      modifies this
      ensures seen == old(seen)
      ensures changed == ElemsChange(w, es, d, seen)
      ensures changed ==> ElemsMaskedAs(w, es, d, seen, List(out))
      decreases Left(d + 1), Addrs(w) - seen, es, 2
    {
      out, changed := [], false;
      ghost var s := seen;
      for i := 0 to |es|
        invariant seen == s
        invariant changed == exists j :: 0 <= j < i && Changes(w, es[j], d + 1, s)
        invariant changed ==> |out| == |es|
        invariant changed ==> forall j :: 0 <= j < i ==>
                    if Changes(w, es[j], d + 1, s) then MaskedAs(w, es[j], d + 1, s, out[j]) else out[j] == Raw(es[j])
      {
        var nv, ch := MaskValue(es[i], d + 1);
        if ch {
          if !changed {
            out := seq(|es|, j requires 0 <= j < |es| => if j < i then Raw(es[j]) else Null);
            changed := true;
          }
          out := out[i := nv];
        } else if changed {
          out := out[i := Raw(es[i])];
        }
      }
    }

    // -------------------------------------------------------------------------
    // Maps
    // -------------------------------------------------------------------------

    /** Every entry as it is; of entries that spell one name, any may remain. */
    method SnapshotMap(es: seq<Entry>) returns (m: Members, ok: bool)
      ensures ok == Encodable(es)
      ensures ok ==> forall e :: e in es ==> KeyName(e.key).value in m
      ensures ok ==> forall n :: n in m ==> exists e :: e in es && KeyName(e.key) == Some(n) && m[n] == Raw(e.value)
    {
      m := map[];
      var order := Range(es);
      for i := 0 to |order|
        invariant forall j :: 0 <= j < i ==> KeyName(order[j].key).Some? && KeyName(order[j].key).value in m
        invariant forall n :: n in m ==> exists e :: e in es && KeyName(e.key) == Some(n) && m[n] == Raw(e.value)
      {
        var e := order[i];
        assert e in es;
        var name := KeyName(e.key);
        if name.None? {
          return m, false;
        }
        m := m[name.value := Raw(e.value)];
      }
      ok := true;
    }

    /** Under n stands a rewritten entry among the first i of `order`, or an original one
        when none of those is rewritten. */
    ghost predicate Settled(es: seq<Entry>, order: seq<Entry>, i: nat, d: nat, s: set<nat>, n: string, o: Out)
      requires i <= |order| && d <= MAX_DEPTH
    {
      || (exists j :: 0 <= j < i && EntryChanges(w, order[j], d, s) && KeyName(order[j].key) == Some(n)
                      && EntryMaskedAs(w, order[j], d, s, o))
      || (&& (forall j :: 0 <= j < i && KeyName(order[j].key) == Some(n) ==> !EntryChanges(w, order[j], d, s))
          && exists e :: e in es && KeyName(e.key) == Some(n) && o == Raw(e.value))
    }

    lemma SettledEntry(es: seq<Entry>, order: seq<Entry>, d: nat, s: set<nat>, n: string, o: Out)
      requires d <= MAX_DEPTH && (forall e :: e in order <==> e in es)
      requires Settled(es, order, |order|, d, s, n, o)
      ensures NameMaskedAs(w, es, d, s, n, o)
    {
      forall e | e in es && KeyName(e.key) == Some(n) ensures exists j :: 0 <= j < |order| && order[j] == e {
        assert e in order;
      }
    }

    method MaskMap(es: seq<Entry>, d: nat) returns (out: Members, changed: bool)
      requires d <= MAX_DEPTH
      modifies this
      ensures seen == old(seen)
      ensures changed == (Encodable(es) && EntriesChange(w, es, d, seen))
      ensures changed ==> EntriesMaskedAs(w, es, d, seen, Obj(out))
      decreases Left(d + 1), Addrs(w) - seen, es, 4
    {
      out, changed := map[], false;
      ghost var s := seen;
      var order := Range(es);
      for i := 0 to |order|
        invariant seen == s && MapState(es, order, i, d, s, changed, out)
      {
        var e := order[i];
        assert e in es;
        if KeyName(e.key).None? {
          return map[], false;
        }
        var nv, ch := MaskEntry(e, d);
        if ch {
          if !changed {
            var ok := true;
            out, ok := SnapshotOf(es, order, i, d, s);
            if !ok {
              return map[], false;
            }
          }
          MapHit(es, order, i, d, s, out, nv);
          out, changed := out[KeyName(e.key).value := nv], true;
        } else {
          MapQuiet(es, order, i, d, s, changed, out);
        }
      }
      MapDone(es, order, d, s, changed, out);
    }

    /** The copy made on the first hit. */
    method SnapshotOf(es: seq<Entry>, ghost order: seq<Entry>, ghost i: nat, ghost d: nat, ghost s: set<nat>)
      returns (out: Members, ok: bool)
      requires i < |order| && d <= MAX_DEPTH
      requires forall j :: 0 <= j < i ==> !EntryChanges(w, order[j], d, s)
      ensures ok == Encodable(es) && (ok ==> Filled(es, order, i, d, s, out))
    {
      out, ok := SnapshotMap(es);
      if ok {
        MapCopied(es, order, i, d, s, out);
      }
    }

    /** out has every name, and under each what the first i entries settle. */
    ghost predicate Filled(es: seq<Entry>, order: seq<Entry>, i: nat, d: nat, s: set<nat>, out: Members)
      requires i <= |order| && d <= MAX_DEPTH
    {
      && Encodable(es) && (forall e :: e in es ==> KeyName(e.key).value in out)
      && forall n :: n in out ==> Settled(es, order, i, d, s, n, out[n])
    }

    /** Where the walk over the entries stands before entry i. */
    ghost predicate MapState(es: seq<Entry>, order: seq<Entry>, i: nat, d: nat, s: set<nat>, changed: bool,
                             out: Members)
      requires i <= |order| && d <= MAX_DEPTH
    {
      && (forall j :: 0 <= j < i ==> KeyName(order[j].key).Some?)
      && (changed <==> exists j :: 0 <= j < i && EntryChanges(w, order[j], d, s))
      && (changed ==> Filled(es, order, i, d, s, out))
    }

    lemma MapCopied(es: seq<Entry>, order: seq<Entry>, i: nat, d: nat, s: set<nat>, out: Members)
      requires i < |order| && d <= MAX_DEPTH && Encodable(es)
      requires forall j :: 0 <= j < i ==> !EntryChanges(w, order[j], d, s)
      requires forall e :: e in es ==> KeyName(e.key).value in out
      requires forall n :: n in out ==> exists e :: e in es && KeyName(e.key) == Some(n) && out[n] == Raw(e.value)
      ensures Filled(es, order, i, d, s, out)
    {}

    lemma MapHit(es: seq<Entry>, order: seq<Entry>, i: nat, d: nat, s: set<nat>, out: Members, nv: Out)
      requires i < |order| && d <= MAX_DEPTH && Filled(es, order, i, d, s, out)
      requires forall j :: 0 <= j <= i ==> KeyName(order[j].key).Some?
      requires EntryChanges(w, order[i], d, s) && EntryMaskedAs(w, order[i], d, s, nv)
      ensures MapState(es, order, i + 1, d, s, true, out[KeyName(order[i].key).value := nv])
    {
      Resettle(es, order, i, d, s, out, nv);
    }

    lemma MapQuiet(es: seq<Entry>, order: seq<Entry>, i: nat, d: nat, s: set<nat>, changed: bool, out: Members)
      requires i < |order| && d <= MAX_DEPTH && MapState(es, order, i, d, s, changed, out)
      requires KeyName(order[i].key).Some? && !EntryChanges(w, order[i], d, s)
      ensures MapState(es, order, i + 1, d, s, changed, out)
    {
      if changed {
        Keep(es, order, i, d, s, out);
      }
    }

    lemma MapDone(es: seq<Entry>, order: seq<Entry>, d: nat, s: set<nat>, changed: bool, out: Members)
      requires d <= MAX_DEPTH && (forall e :: e in order <==> e in es)
      requires MapState(es, order, |order|, d, s, changed, out)
      ensures changed == (Encodable(es) && EntriesChange(w, es, d, s))
      ensures changed ==> EntriesMaskedAs(w, es, d, s, Obj(out))
    {
      if changed {
        forall n | n in out ensures NameMaskedAs(w, es, d, s, n, out[n]) {
          SettledEntry(es, order, d, s, n, out[n]);
        }
        var j :| 0 <= j < |order| && EntryChanges(w, order[j], d, s);
        assert order[j] in es;
      } else {
        forall e | e in es ensures !EntryChanges(w, e, d, s) { assert e in order; }
      }
    }

    /** The outcome of one entry: its key decides first. */
    method MaskEntry(e: Entry, d: nat) returns (o: Out, changed: bool)
      requires d <= MAX_DEPTH && KeyName(e.key).Some?
      modifies this
      ensures seen == old(seen)
      ensures changed == EntryChanges(w, e, d, seen)
      ensures changed ==> EntryMaskedAs(w, e, d, seen, o)
      decreases Left(d + 1), Addrs(w) - seen, e, 3
    {
      var hit := HitMapKey(e.key, KeyName(e.key).value);
      if hit {
        return Stars, true;
      }
      o, changed := MaskValue(e.value, d + 1);
    }

    lemma Resettle(es: seq<Entry>, order: seq<Entry>, i: nat, d: nat, s: set<nat>, out: Members, nv: Out)
      requires i < |order| && d <= MAX_DEPTH && KeyName(order[i].key).Some?
      requires EntryChanges(w, order[i], d, s) && EntryMaskedAs(w, order[i], d, s, nv)
      requires forall n :: n in out ==> Settled(es, order, i, d, s, n, out[n])
      ensures var out' := out[KeyName(order[i].key).value := nv];
              forall n :: n in out' ==> Settled(es, order, i + 1, d, s, n, out'[n])
    {
      var name := KeyName(order[i].key).value;
      var out' := out[name := nv];
      forall n | n in out' ensures Settled(es, order, i + 1, d, s, n, out'[n]) {
        if n != name { assert Settled(es, order, i, d, s, n, out[n]); }
      }
    }

    lemma Keep(es: seq<Entry>, order: seq<Entry>, i: nat, d: nat, s: set<nat>, out: Members)
      requires i < |order| && d <= MAX_DEPTH && !EntryChanges(w, order[i], d, s)
      requires forall n :: n in out ==> Settled(es, order, i, d, s, n, out[n])
      ensures forall n :: n in out ==> Settled(es, order, i + 1, d, s, n, out[n])
    {
      forall n | n in out ensures Settled(es, order, i + 1, d, s, n, out[n]) {
        assert Settled(es, order, i, d, s, n, out[n]);
      }
    }

    // -------------------------------------------------------------------------
    // Structs
    // -------------------------------------------------------------------------

    /** m holds the named fields among the first i as they are; of equal names the last. */
    static ghost predicate PlainUpTo(fs: seq<Field>, i: nat, m: Members)
      requires i <= |fs|
    {
      && (forall n :: n in m <==> LastRaw(fs, i, n) >= 0)
      && (forall n :: n in m ==> m[n] == Raw(fs[LastRaw(fs, i, n)].value))
    }

    method NamedRaw(fs: seq<Field>) returns (m: Members)
      ensures PlainUpTo(fs, |fs|, m)
    {
      m := map[];
      for i := 0 to |fs|
        invariant PlainUpTo(fs, i, m)
      {
        PlainNext(fs, i, m);
        if Member(fs[i]) && fs[i].exported {
          m := m[FieldName(fs[i]) := Raw(fs[i].value)];
        }
      }
    }

    static lemma PlainNext(fs: seq<Field>, i: nat, m: Members)
      requires i < |fs| && PlainUpTo(fs, i, m)
      ensures PlainUpTo(fs, i + 1,
                        if Member(fs[i]) && fs[i].exported then m[FieldName(fs[i]) := Raw(fs[i].value)] else m)
    {}

    /** What stands under n after the named pass over i fields. */
    ghost predicate LevelAt(fs: seq<Field>, d: nat, s: set<nat>, i: nat, m: Members, n: string)
      requires i <= |fs| && d <= MAX_DEPTH
    {
      var c, k := LastChanged(w, fs, d, s, i, n), LastRaw(fs, |fs|, n);
      && (n in m <==> c >= 0 || k >= 0)
      && (n in m ==> if c >= 0 then MemberMaskedAs(w, fs[c], d, s, m[n]) else m[n] == Raw(fs[k].value))
    }

    /** The state of the named pass after i fields, once a map exists. */
    ghost predicate LevelUpTo(fs: seq<Field>, d: nat, s: set<nat>, i: nat, m: Members)
      requires i <= |fs| && d <= MAX_DEPTH
    {
      forall n :: LevelAt(fs, d, s, i, m, n)
    }

    lemma LevelStep(fs: seq<Field>, d: nat, s: set<nat>, i: nat, m: Members, nv: Out)
      requires i < |fs| && d <= MAX_DEPTH && LevelUpTo(fs, d, s, i, m)
      requires MemberChanges(w, fs[i], d, s) && MemberMaskedAs(w, fs[i], d, s, nv)
      ensures LevelUpTo(fs, d, s, i + 1, m[FieldName(fs[i]) := nv])
    {
      var next, m' := i + 1, m[FieldName(fs[i]) := nv];
      forall n ensures LevelAt(fs, d, s, next, m', n) {
        assert LevelAt(fs, d, s, i, m, n);
      }
    }

    lemma LevelStay(fs: seq<Field>, d: nat, s: set<nat>, i: nat, m: Members)
      requires i < |fs| && d <= MAX_DEPTH && LevelUpTo(fs, d, s, i, m) && !MemberChanges(w, fs[i], d, s)
      ensures LevelUpTo(fs, d, s, i + 1, m)
    {
      var next := i + 1;
      forall n ensures LevelAt(fs, d, s, next, m, n) {
        assert LevelAt(fs, d, s, i, m, n);
      }
    }

    lemma LevelDone(fs: seq<Field>, d: nat, s: set<nat>, m: Members)
      requires d <= MAX_DEPTH && LevelUpTo(fs, d, s, |fs|, m)
      ensures LevelMaskedAs(w, fs, d, s, m)
    {
      forall n | n in m ensures LevelAt(fs, d, s, |fs|, m, n) {}
      forall i | 0 <= i < |fs| && Member(fs[i]) ensures FieldName(fs[i]) in m {
        var n := FieldName(fs[i]);
        assert LevelAt(fs, d, s, |fs|, m, n);
        if LastChanged(w, fs, d, s, |fs|, n) < 0 {
          NoneChanged(w, fs, d, s, |fs|, n, i);
          SomeRaw(fs, |fs|, n, i);
        }
      }
    }

    lemma {:induction false} SomeRaw(fs: seq<Field>, i: nat, n: string, k: nat)
      requires k < i <= |fs| && Member(fs[k]) && fs[k].exported && FieldName(fs[k]) == n
      ensures LastRaw(fs, i, n) >= 0
      decreases i
    {
      if k < i - 1 { SomeRaw(fs, i - 1, n, k); }
    }

    lemma {:induction false} LastChangedNone(fs: seq<Field>, d: nat, s: set<nat>, i: nat, n: string)
      requires i <= |fs| && d <= MAX_DEPTH && forall j :: 0 <= j < i ==> !MemberChanges(w, fs[j], d, s)
      ensures LastChanged(w, fs, d, s, i, n) < 0
    {
      if i > 0 { LastChangedNone(fs, d, s, i - 1, n); }
    }

    /** Nothing rewritten among the first i fields: the plain copy is where the pass stands. */
    lemma LevelFresh(fs: seq<Field>, d: nat, s: set<nat>, i: nat, m: Members)
      requires i <= |fs| && d <= MAX_DEPTH && forall j :: 0 <= j < i ==> !MemberChanges(w, fs[j], d, s)
      requires PlainUpTo(fs, |fs|, m)
      ensures LevelUpTo(fs, d, s, i, m)
    {
      forall n ensures LevelAt(fs, d, s, i, m, n) { LastChangedNone(fs, d, s, i, n); }
    }

    /** The outcome of one named field. */
    method MaskMember(f: Field, d: nat) returns (o: Out, changed: bool)
      requires d <= MAX_DEPTH && Member(f)
      modifies this
      ensures seen == old(seen)
      ensures changed == MemberChanges(w, f, d, seen)
      ensures changed ==> MemberMaskedAs(w, f, d, seen, o)
      decreases Left(d), Addrs(w) - seen, f, 4
    {
      var hit := HitFieldName(f, FieldName(f));
      if hit {
        return Stars, true;
      }
      if !f.exported {
        o := MaskUnexported(f.value, d + 1);
        return o, true;
      }
      o, changed := MaskValue(f.value, d + 1);
    }

    method MaskNamed(fs: seq<Field>, d: nat) returns (out: Option<Members>)
      requires d <= MAX_DEPTH
      modifies this
      ensures seen == old(seen)
      ensures out.None? ==> forall i :: 0 <= i < |fs| ==> !MemberChanges(w, fs[i], d, seen)
      ensures out.Some? ==> exists i :: 0 <= i < |fs| && MemberChanges(w, fs[i], d, seen)
      ensures out.Some? ==> LevelMaskedAs(w, fs, d, seen, out.value)
      decreases Left(d), Addrs(w) - seen, fs, 0
    {
      out := None;
      ghost var s, hit := seen, 0;
      for i := 0 to |fs|
        invariant seen == s && NamedState(fs, d, s, i, out, hit)
      {
        var nv, ch := Null, false;
        if Member(fs[i]) {
          nv, ch := MaskMember(fs[i], d);
        }
        if ch {
          var m := Copied(fs, out);
          NamedHit(fs, d, s, i, out, hit, m, nv);
          out, hit := Some(m[FieldName(fs[i]) := nv]), i;
        } else {
          NamedQuiet(fs, d, s, i, out, hit);
        }
      }
      if out.Some? { LevelDone(fs, d, s, out.value); }
    }

    /** The map in hand, or the copy made on the first hit. */
    method Copied(fs: seq<Field>, out: Option<Members>) returns (m: Members)
      ensures if out.Some? then m == out.value else PlainUpTo(fs, |fs|, m)
    {
      if out.Some? {
        return out.value;
      }
      m := NamedRaw(fs);
    }

    lemma NamedHit(fs: seq<Field>, d: nat, s: set<nat>, i: nat, out: Option<Members>, hit: nat, m: Members, nv: Out)
      requires i < |fs| && d <= MAX_DEPTH && NamedState(fs, d, s, i, out, hit)
      requires if out.Some? then m == out.value else PlainUpTo(fs, |fs|, m)
      requires MemberChanges(w, fs[i], d, s) && MemberMaskedAs(w, fs[i], d, s, nv)
      ensures NamedState(fs, d, s, i + 1, Some(m[FieldName(fs[i]) := nv]), i)
    {
      if out.None? {
        LevelFresh(fs, d, s, i, m);
      }
      LevelStep(fs, d, s, i, m, nv);
    }

    lemma NamedQuiet(fs: seq<Field>, d: nat, s: set<nat>, i: nat, out: Option<Members>, hit: nat)
      requires i < |fs| && d <= MAX_DEPTH && NamedState(fs, d, s, i, out, hit) && !MemberChanges(w, fs[i], d, s)
      ensures NamedState(fs, d, s, i + 1, out, hit)
    {
      if out.Some? {
        LevelStay(fs, d, s, i, out.value);
      }
    }

    /** No map before the first rewritten field; after it the map of the pass, and the last
        rewritten field. */
    ghost predicate NamedState(fs: seq<Field>, d: nat, s: set<nat>, i: nat, out: Option<Members>, hit: nat)
      requires i <= |fs| && d <= MAX_DEPTH
    {
      if out.None? then forall j :: 0 <= j < i ==> !MemberChanges(w, fs[j], d, s)
      else hit < i && MemberChanges(w, fs[hit], d, s) && LevelUpTo(fs, d, s, i, out.value)
    }

    /** The first |subs| embedded fields contribute `subs`. */
    ghost predicate EmbedsUpTo(fs: seq<Field>, d: nat, s: set<nat>, subs: seq<Members>)
      requires d <= MAX_DEPTH
    {
      |subs| <= |fs| && forall j :: 0 <= j < |subs| ==> EmbedMaskedAs(w, fs[j], d, s, subs[j])
    }

    /** Where the embedded pass stands: `out` is the level merged with the contributions. */
    ghost predicate Flattening(fs: seq<Field>, d: nat, s: set<nat>, out: Members, level: Members, subs: seq<Members>)
      requires d <= MAX_DEPTH
    {
      LevelMaskedAs(w, fs, d, s, level) && EmbedsUpTo(fs, d, s, subs) && out == MergeAll(level, subs)
    }

    lemma FlatteningStep(fs: seq<Field>, d: nat, s: set<nat>, out: Members, level: Members, subs: seq<Members>,
                         sub: Members)
      requires d <= MAX_DEPTH && |subs| < |fs|
      requires Flattening(fs, d, s, out, level, subs) && EmbedMaskedAs(w, fs[|subs|], d, s, sub)
      ensures Flattening(fs, d, s, Merge(out, sub), level, subs + [sub])
    {
      assert (subs + [sub])[..|subs|] == subs;
    }

    /** Where the pass over the embedded fields stands before field i. */
    ghost predicate StructState(fs: seq<Field>, d: nat, s: set<nat>, i: nat, changed: bool, out: Members,
                                level: Members, subs: seq<Members>)
      requires i <= |fs| && d <= MAX_DEPTH
    {
      if changed then |subs| == i && Flattening(fs, d, s, out, level, subs) && StructChanges(w, fs, d, s)
      else
        && (forall j :: 0 <= j < |fs| ==> !MemberChanges(w, fs[j], d, s))
        && (forall j :: 0 <= j < i ==> !EmbedChanges(w, fs[j], d, s))
    }

    /** Field i contributes sub. */
    lemma StateNext(fs: seq<Field>, d: nat, s: set<nat>, i: nat, out: Members, level: Members, subs: seq<Members>,
                    sub: Members)
      requires i < |fs| && d <= MAX_DEPTH && StructState(fs, d, s, i, true, out, level, subs)
      requires EmbedMaskedAs(w, fs[i], d, s, sub)
      ensures StructState(fs, d, s, i + 1, true, Merge(out, sub), level, subs + [sub])
    {
      FlatteningStep(fs, d, s, out, level, subs, sub);
    }

    lemma StateFirst(fs: seq<Field>, d: nat, s: set<nat>, i: nat, out: Members, level: Members, subs: seq<Members>)
      requires i < |fs| && d <= MAX_DEPTH && |subs| == i && Flattening(fs, d, s, out, level, subs)
      requires EmbedChanges(w, fs[i], d, s)
      ensures StructState(fs, d, s, i, true, out, level, subs)
    {}

    lemma StateDone(fs: seq<Field>, d: nat, s: set<nat>, changed: bool, out: Members, level: Members,
                    subs: seq<Members>)
      requires d <= MAX_DEPTH && StructState(fs, d, s, |fs|, changed, out, level, subs)
      ensures changed == StructChanges(w, fs, d, s)
      ensures changed ==> StructMaskedAs(w, fs, d, s, Obj(out))
    {}

    static lemma MergeNothing(out: Members)
      ensures Merge(out, map[]) == out
    {}

    method MaskStruct(fs: seq<Field>, d: nat) returns (out: Members, changed: bool)
      requires d <= MAX_DEPTH
      modifies this
      ensures seen == old(seen)
      ensures changed == StructChanges(w, fs, d, seen)
      ensures changed ==> StructMaskedAs(w, fs, d, seen, Obj(out))
      decreases Left(d), Addrs(w) - seen, fs, 2
    {
      ghost var s := seen;
      var first := MaskNamed(fs, d);
      changed := first.Some?;
      out := if changed then first.value else map[];
      ghost var level, subs := out, [];
      for i := 0 to |fs|
        invariant seen == s && StructState(fs, d, s, i, changed, out, level, subs)
      {
        if !Flattened(fs[i]) {
          if changed {
            StateNext(fs, d, s, i, out, level, subs, map[]);
            MergeNothing(out);
            subs := subs + [map[]];
          }
          continue;
        }
        var part, ch := MaskEmbed(fs[i], d);
        if ch && !changed {
          out, level, subs := Backfill(fs, i, d, s);
          StateFirst(fs, d, s, i, out, level, subs);
          changed := true;
        }
        if changed {
          ghost var sub := if ch then part else FlatRaw(w, fs[i].value, MAX_DEPTH);
          StateNext(fs, d, s, i, out, level, subs, sub);
          if ch {
            out := Merge(out, part);
          } else {
            out := StructRaw(out, fs[i].value, MAX_DEPTH);
          }
          subs := subs + [sub];
        }
      }
      StateDone(fs, d, s, changed, out, level, subs);
    }

    /** The map as it stands when the first rewritten embedded field is met at i. */
    method Backfill(fs: seq<Field>, i: nat, ghost d: nat, ghost s: set<nat>)
      returns (out: Members, ghost level: Members, ghost subs: seq<Members>)
      requires i <= |fs| && d <= MAX_DEPTH
      requires forall j :: 0 <= j < |fs| ==> !MemberChanges(w, fs[j], d, s)
      requires forall j :: 0 <= j < i ==> !EmbedChanges(w, fs[j], d, s)
      ensures |subs| == i && Flattening(fs, d, s, out, level, subs)
    {
      out := NamedRaw(fs);
      level, subs := out, [];
      PlainIsFlattening(fs, d, s, level);
      for j := 0 to i
        invariant |subs| == j && Flattening(fs, d, s, out, level, subs)
      {
        ghost var sub := Unmasked(fs[j]);
        UnmaskedStep(fs, d, s, out, level, subs);
        subs := subs + [sub];
        if Flattened(fs[j]) {
          out := StructRaw(out, fs[j].value, MAX_DEPTH);
        } else {
          MergeNothing(out);
        }
      }
    }

    /** What a field that is not rewritten contributes. */
    ghost function Unmasked(f: Field): Members { if Flattened(f) then FlatRaw(w, f.value, MAX_DEPTH) else map[] }

    lemma PlainIsFlattening(fs: seq<Field>, d: nat, s: set<nat>, level: Members)
      requires d <= MAX_DEPTH && PlainUpTo(fs, |fs|, level)
      requires forall j :: 0 <= j < |fs| ==> !MemberChanges(w, fs[j], d, s)
      ensures Flattening(fs, d, s, level, level, [])
    {
      LevelFresh(fs, d, s, |fs|, level);
      LevelDone(fs, d, s, level);
    }

    lemma UnmaskedStep(fs: seq<Field>, d: nat, s: set<nat>, out: Members, level: Members, subs: seq<Members>)
      requires d <= MAX_DEPTH && |subs| < |fs| && Flattening(fs, d, s, out, level, subs)
      requires !EmbedChanges(w, fs[|subs|], d, s)
      ensures Flattening(fs, d, s, Merge(out, Unmasked(fs[|subs|])), level, subs + [Unmasked(fs[|subs|])])
    {
      FlatteningStep(fs, d, s, out, level, subs, Unmasked(fs[|subs|]));
    }

    /** What a flattened field contributes: its own masked members, or the placeholder
        under the type name when it cannot be entered. */
    method MaskEmbed(f: Field, d: nat) returns (sub: Members, changed: bool)
      requires d <= MAX_DEPTH && Flattened(f)
      modifies this
      ensures seen == old(seen)
      ensures changed == EmbedChanges(w, f, d, seen)
      ensures changed ==> EmbedMaskedAs(w, f, d, seen, sub)
      decreases Left(d), Addrs(w) - seen, f, 4
    {
      sub, changed := map[], false;
      match f.value
      case Ptr(_, r) =>
        if r in w.ptrs {
          var addr := w.ptrs[r].addr;
          if addr in seen {
            return map[f.name := Stars], true;
          }
          ghost var path := seen;
          seen := seen + {addr};
          sub, changed := MaskStruct(FieldsOf(w, f.value), d);
          seen := seen - {addr};
          assert seen == path;
        }
      case Struct(_, fs) =>
        sub, changed := MaskStruct(fs, d);
      case _ =>
    }

    method MaskUnexported(v: Value, d: nat) returns (o: Out)
      modifies this
      ensures seen == old(seen)
      ensures UnexportedMaskedAs(w, v, d, seen, o)
      decreases Left(d), Addrs(w) - seen, v, 4
    {
      if d > MAX_DEPTH {
        return Stars;
      }
      if v.Ptr? {
        if v.ref !in w.ptrs {
          return Null;
        }
        var addr := w.ptrs[v.ref].addr;
        if addr in seen {
          return Stars;
        }
        ghost var path := seen;
        seen := seen + {addr};
        o := Rebuild(w.ptrs[v.ref].value, d);
        seen := seen - {addr};
        assert seen == path;
      } else {
        o := Rebuild(v, d);
      }
    }

    method Rebuild(v: Value, d: nat) returns (o: Out)
      requires d <= MAX_DEPTH
      modifies this
      ensures seen == old(seen)
      ensures RebuiltAs(w, v, d, seen, o)
      decreases Left(d), Addrs(w) - seen, v, 3
    {
      if !v.Struct? {
        return Stars;
      }
      var m, ch := MaskStruct(v.fields, d);
      if ch {
        return Obj(m);
      }
      m := StructRaw(map[], v, MAX_DEPTH);
      o := Obj(m);
    }

    /** Adds a struct's flattened members as they are, overwriting nothing. */
    method StructRaw(out: Members, v: Value, budget: nat) returns (out': Members)
      ensures out' == Merge(out, FlatRaw(w, v, budget))
      decreases budget, 0
    {
      if budget == 0 {
        return out;
      }
      var fs := FieldsOf(w, v);
      out' := MembersRaw(out, fs);
      ghost var base, subs := RawMembers(fs, |fs|), FlatRawEmbeds(w, fs, budget);
      ghost var part := base;
      assert subs[..0] == [];
      for i := 0 to |fs|
        invariant part == MergeAll(base, subs[..i]) && out' == Merge(out, part)
      {
        MergeAllNext(base, subs, i);
        MergeInto(out, part, subs[i]);
        part := Merge(part, subs[i]);
        out' := EmbedRaw(out', fs[i], budget - 1);
      }
      assert subs[..|fs|] == subs;
    }

    /** A flattened field adds its members, any other nothing. */
    method EmbedRaw(out: Members, f: Field, budget: nat) returns (out': Members)
      ensures out' == Merge(out, if Flattened(f) then FlatRaw(w, f.value, budget) else map[])
      decreases budget, 1
    {
      if Flattened(f) {
        out' := StructRaw(out, f.value, budget);
      } else {
        MergeNothing(out);
        out' := out;
      }
    }

    static lemma MergeAllNext(base: Members, subs: seq<Members>, i: nat)
      requires i < |subs|
      ensures MergeAll(base, subs[..i + 1]) == Merge(MergeAll(base, subs[..i]), subs[i])
    {
      assert subs[..i + 1][..i] == subs[..i];
    }

    method MembersRaw(out: Members, fs: seq<Field>) returns (out': Members)
      ensures out' == Merge(out, RawMembers(fs, |fs|))
    {
      out' := out;
      for i := 0 to |fs|
        invariant out' == Merge(out, RawMembers(fs, i))
      {
        var name := FieldName(fs[i]);
        MembersNext(out, fs, i);
        if Member(fs[i]) && fs[i].exported && name !in out' {
          out' := out'[name := Raw(fs[i].value)];
        }
      }
    }

    static lemma MembersNext(out: Members, fs: seq<Field>, i: nat)
      requires i < |fs|
      ensures var m, name := Merge(out, RawMembers(fs, i)), FieldName(fs[i]);
              Merge(out, RawMembers(fs, i + 1))
              == if Member(fs[i]) && fs[i].exported && name !in m then m[name := Raw(fs[i].value)] else m
    {}

    static lemma MergeInto(out: Members, part: Members, sub: Members)
      ensures Merge(Merge(out, part), sub) == Merge(out, Merge(part, sub))
    {}
  }

  /** The entry point: nothing under a blacklisted name survives, and a value is handed
      back untouched only when it reaches no such name. */
  method MaskReflected(w: World, v: Value, d: nat) returns (o: Out, changed: bool)
    ensures changed == Changes(w, v, d, {})
    ensures changed ==> MaskedAs(w, v, d, {}, o) && Justified(w, v, o)
    ensures !changed ==> o == Raw(v) && Clean(w, v)
  {
    var walk := new Walk(w);
    o, changed := walk.MaskValue(v, d);
    if changed {
      JustValue(w, v, d, {}, o);
    } else {
      o := Raw(v);
      Untouched(w, v, d, {});
    }
  }
}
