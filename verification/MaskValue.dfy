/** What nested masking may and may not produce: values, the JSON view of them, and
    the relation between a value and its masked form.

    A value is a finite inline tree; pointers, maps and slices refer to cells of the
    `World`, so a value may reach itself.  A reference without a cell is nil.  Several
    pointer cells may share one address, as a struct and its first field do. */
module MaskValue {
  import opened Common
  import opened MaskKey

  const MAX_DEPTH := 8

  // ---------------------------------------------------------------------------
  // Values
  // ---------------------------------------------------------------------------

  /** `self` marks a type that carries its own JSON or text serialization. */
  datatype Value =
    | Scalar(id: int)
    | Ptr(self: bool, ref: nat)
    | Iface(self: bool, boxed: Option<Value>)
    | Struct(self: bool, fields: seq<Field>)
    | Array(self: bool, bytes: bool, elems: seq<Value>)
    | Slice(self: bool, bytes: bool, ref: nat)
    | Map(self: bool, kind: KeyKind, ref: nat)

  /** `structType`: the field's type is a struct after at most one pointer dereference. */
  datatype Field = Field(name: string, tag: Option<string>, anonymous: bool, exported: bool,
                         structType: bool, value: Value)

  /** How a map type's keys become JSON member names. */
  datatype KeyKind = StringKeys | ConvertedKeys | UnencodableKeys

  datatype Key =
    | StringKey(s: string)
    | TextKey(text: Option<string>, raw: Option<string>)  // MarshalText; raw if the kind is string
    | NumberKey(spelled: Option<string>)                  // as JSON spells it; None for NaN and Inf
    | BoxedKey(boxed: Option<Key>)                        // a key boxed in an interface
    | OtherKey                                            // bool, struct, ...

  datatype Entry = Entry(key: Key, value: Value)
  datatype Pointee = Pointee(addr: nat, value: Value)

  datatype World = World(keys: set<string>, ptrs: map<nat, Pointee>, maps: map<nat, seq<Entry>>,
                         slices: map<nat, seq<Value>>)

  function Addrs(w: World): set<nat> {
    set r | r in w.ptrs :: w.ptrs[r].addr
  }

  // ---------------------------------------------------------------------------
  // Names
  // ---------------------------------------------------------------------------

  function CutComma(tag: string): string {
    if tag == "" || tag[0] == ',' then "" else [tag[0]] + CutComma(tag[1..])
  }

  /** Flattened into the parent, as encoding/json does with an unnamed embedded struct. */
  predicate Flattened(f: Field) {
    f.anonymous && f.structType && !(f.tag.Some? && CutComma(f.tag.value) != "")
  }

  predicate Named(f: Field) {
    !Flattened(f) && (f.exported || (f.anonymous && f.structType))
  }

  /** The member name; empty when the tag excludes the field. */
  function FieldName(f: Field): string {
    if f.tag.None? then f.name
    else if f.tag.value == "-" then ""
    else if CutComma(f.tag.value) == "" then f.name
    else CutComma(f.tag.value)
  }

  /** A member of this level's JSON object. */
  predicate Member(f: Field) { Named(f) && FieldName(f) != "" }

  predicate Corrupted(tag: string) {
    exists i :: 0 <= i < |tag| && IsReserved(tag[i]) && tag[i] != ','
  }

  /** The three candidate names of a field. */
  predicate HitField(w: World, f: Field) {
    || SuffixHit(w.keys, FieldName(f))
    || SuffixHit(w.keys, f.name)
    || (f.tag.Some? && Corrupted(f.tag.value) && WindowHit(w.keys, ReplaceReserved(f.tag.value)))
  }

  function KeyName(k: Key): Option<string> {
    match k
    case StringKey(s) => Some(s)
    case TextKey(t, _) => t
    case NumberKey(t) => t
    case BoxedKey(b) => if b.None? then None else KeyName(b.value)
    case OtherKey => None
  }

  function RawString(k: Key): Option<string> {
    match k
    case StringKey(s) => Some(s)
    case TextKey(_, raw) => raw
    case BoxedKey(b) => if b.None? then None else RawString(b.value)
    case _ => None
  }

  predicate HitKey(w: World, k: Key) {
    || (KeyName(k).Some? && SuffixHit(w.keys, KeyName(k).value))
    || (RawString(k).Some? && SuffixHit(w.keys, RawString(k).value))
  }

  predicate Encodable(es: seq<Entry>) {
    forall e :: e in es ==> KeyName(e.key).Some?
  }

  // ---------------------------------------------------------------------------
  // The JSON view: what a reader of the encoded value can reach
  // ---------------------------------------------------------------------------

  datatype Child = Child(sensitive: bool, value: Value)

  predicate Closed(v: Value) { v.Scalar? || v.self }

  function FieldsOf(w: World, v: Value): seq<Field> {
    match v
    case Struct(_, fs) => fs
    case Ptr(_, r) => if r in w.ptrs && w.ptrs[r].value.Struct? then w.ptrs[r].value.fields else []
    case _ => []
  }

  /** An embedded struct seen field by field, whatever serialization its type declares. */
  function Opened(w: World, v: Value): Value { Struct(false, FieldsOf(w, v)) }

  function FieldChild(w: World, f: Field): Child {
    if Member(f) then Child(HitField(w, f), if f.exported then f.value else Opened(w, f.value))
    else if Flattened(f) then Child(false, Opened(w, f.value))
    else Child(false, Scalar(0))
  }

  function Elems(w: World, v: Value): seq<Value>
    requires v.Array? || v.Slice?
  {
    if v.bytes then []
    else match v
      case Array(_, _, es) => es
      case Slice(_, _, r) => if r in w.slices then w.slices[r] else []
  }

  function Entries(w: World, v: Value): seq<Entry>
    requires v.Map?
  {
    if v.kind != UnencodableKeys && v.ref in w.maps && Encodable(w.maps[v.ref]) then w.maps[v.ref] else []
  }

  function FieldChildren(w: World, fs: seq<Field>): seq<Child> {
    seq(|fs|, i requires 0 <= i < |fs| => FieldChild(w, fs[i]))
  }

  function EntryChildren(w: World, es: seq<Entry>): seq<Child> {
    seq(|es|, i requires 0 <= i < |es| => Child(HitKey(w, es[i].key), es[i].value))
  }

  function ElemChildren(es: seq<Value>): seq<Child> {
    seq(|es|, i requires 0 <= i < |es| => Child(false, es[i]))
  }

  function Children(w: World, v: Value): seq<Child> {
    if Closed(v) then []
    else match v
      case Scalar(_) => []
      case Ptr(_, r) => if r in w.ptrs then [Child(false, w.ptrs[r].value)] else []
      case Iface(_, b) => if b.Some? then [Child(false, b.value)] else []
      case Struct(_, fs) => FieldChildren(w, fs)
      case Array(_, _, _) => ElemChildren(Elems(w, v))
      case Slice(_, _, _) => ElemChildren(Elems(w, v))
      case Map(_, _, _) => EntryChildren(w, Entries(w, v))
  }

  /** Following `path` from v arrives at a member whose name is blacklisted. */
  ghost predicate Exposes(w: World, v: Value, path: seq<nat>)
    decreases |path|
  {
    && path != []
    && path[0] < |Children(w, v)|
    && var c := Children(w, v)[path[0]];
       (|path| == 1 && c.sensitive) || Exposes(w, c.value, path[1..])
  }

  ghost predicate Clean(w: World, v: Value) {
    forall path :: !Exposes(w, v, path)
  }

  /** x is reached from v along `path` without passing a blacklisted name. */
  ghost predicate Openly(w: World, v: Value, path: seq<nat>, x: Value)
    decreases |path|
  {
    if path == [] then v == x
    else
      && path[0] < |Children(w, v)|
      && var c := Children(w, v)[path[0]];
         !c.sensitive && Openly(w, c.value, path[1..], x)
  }

  /** v points to something the walk is already inside. */
  predicate Blocked(w: World, v: Value, seen: set<nat>) {
    v.Ptr? && v.ref in w.ptrs && w.ptrs[v.ref].addr in seen
  }

  /** The addresses the walk is inside once it has followed v. */
  function Inside(w: World, v: Value, seen: set<nat>): set<nat> {
    if v.Ptr? && v.ref in w.ptrs then seen + {w.ptrs[v.ref].addr} else seen
  }

  // ---------------------------------------------------------------------------
  // When masking rewrites a value
  // ---------------------------------------------------------------------------

  function Left(d: nat): nat { if d > MAX_DEPTH then 0 else MAX_DEPTH + 1 - d }

  ghost predicate Changes(w: World, v: Value, d: nat, seen: set<nat>)
    decreases Left(d), Addrs(w) - seen, v, 1
  {
    if Closed(v) then false
    else if d > MAX_DEPTH then true
    else match v
      case Ptr(_, r) =>
        && r in w.ptrs
        && var p := w.ptrs[r];
           p.addr in seen || Changes(w, p.value, d, seen + {p.addr})
      case Iface(_, b) => b.Some? && Changes(w, b.value, d, seen)
      case Struct(_, fs) => StructChanges(w, fs, d, seen)
      case Scalar(_) => false
      case Array(_, _, _) => ElemsChange(w, Elems(w, v), d, seen)
      case Slice(_, _, _) => ElemsChange(w, Elems(w, v), d, seen)
      case Map(_, _, _) => EntriesChange(w, Entries(w, v), d, seen)
  }

  ghost predicate ElemsChange(w: World, es: seq<Value>, d: nat, seen: set<nat>)
    requires d <= MAX_DEPTH
    decreases Left(d + 1), Addrs(w) - seen, es, 2
  {
    exists i :: 0 <= i < |es| && Changes(w, es[i], d + 1, seen)
  }

  ghost predicate EntriesChange(w: World, es: seq<Entry>, d: nat, seen: set<nat>)
    requires d <= MAX_DEPTH
    decreases Left(d + 1), Addrs(w) - seen, es, 3
  {
    exists e :: e in es && EntryChanges(w, e, d, seen)
  }

  ghost predicate EntryChanges(w: World, e: Entry, d: nat, seen: set<nat>)
    requires d <= MAX_DEPTH
    decreases Left(d + 1), Addrs(w) - seen, e, 2
  {
    HitKey(w, e.key) || Changes(w, e.value, d + 1, seen)
  }

  ghost predicate StructChanges(w: World, fs: seq<Field>, d: nat, seen: set<nat>)
    requires d <= MAX_DEPTH
    decreases Left(d), Addrs(w) - seen, fs, 0
  {
    exists i :: 0 <= i < |fs| && (MemberChanges(w, fs[i], d, seen) || EmbedChanges(w, fs[i], d, seen))
  }

  /** An unexported named embed is always rebuilt: its value cannot be handed back. */
  ghost predicate MemberChanges(w: World, f: Field, d: nat, seen: set<nat>)
    requires d <= MAX_DEPTH
    decreases Left(d), Addrs(w) - seen, f, 2
  {
    Member(f) && (HitField(w, f) || !f.exported || Changes(w, f.value, d + 1, seen))
  }

  ghost predicate EmbedChanges(w: World, f: Field, d: nat, seen: set<nat>)
    requires d <= MAX_DEPTH
    decreases Left(d), Addrs(w) - seen, f, 2
  {
    && Flattened(f)
    && match f.value
       case Ptr(_, r) =>
         && r in w.ptrs
         && (w.ptrs[r].addr in seen || StructChanges(w, FieldsOf(w, f.value), d, seen + {w.ptrs[r].addr}))
       case Struct(_, fs) => StructChanges(w, fs, d, seen)
       case _ => false
  }

  // ---------------------------------------------------------------------------
  // What masking rewrites a value to
  // ---------------------------------------------------------------------------

  /** `Raw` is an original value handed on as it is, `Stars` the placeholder. */
  datatype Out = Stars | Null | Raw(v: Value) | Obj(members: map<string, Out>) | List(items: seq<Out>)

  type Members = map<string, Out>

  /** Both sets of members, the first winning where they collide. */
  function Merge(a: Members, b: Members): Members { b + a }

  function MergeAll(base: Members, subs: seq<Members>): Members {
    if subs == [] then base else Merge(MergeAll(base, subs[..|subs| - 1]), subs[|subs| - 1])
  }

  /** The members of a struct copied as they are, the first of equal names winning. */
  function RawMembers(fs: seq<Field>, i: nat): Members
    requires i <= |fs|
  {
    if i == 0 then map[]
    else
      var m, f := RawMembers(fs, i - 1), fs[i - 1];
      if Member(f) && f.exported && FieldName(f) !in m then m[FieldName(f) := Raw(f.value)] else m
  }

  /** The flattened members of an untouched struct, down to `budget` embedding levels. */
  function FlatRaw(w: World, v: Value, budget: nat): Members
    decreases budget
  {
    if budget == 0 then map[]
    else
      var fs := FieldsOf(w, v);
      MergeAll(RawMembers(fs, |fs|), FlatRawEmbeds(w, fs, budget))
  }

  function FlatRawEmbeds(w: World, fs: seq<Field>, budget: nat): (subs: seq<Members>)
    requires budget > 0
    decreases budget, 0
    ensures |subs| == |fs|
  {
    seq(|fs|, i requires 0 <= i < |fs| =>
      if Flattened(fs[i]) then FlatRaw(w, fs[i].value, budget - 1) else map[])
  }

  /** o is a permitted masked form of v. */
  ghost predicate MaskedAs(w: World, v: Value, d: nat, seen: set<nat>, o: Out)
    decreases Left(d), Addrs(w) - seen, v, 1
  {
    if Closed(v) then false
    else if d > MAX_DEPTH then o == Stars
    else match v
      case Ptr(_, r) =>
        && r in w.ptrs
        && var p := w.ptrs[r];
           if p.addr in seen then o == Stars else MaskedAs(w, p.value, d, seen + {p.addr}, o)
      case Iface(_, b) => b.Some? && MaskedAs(w, b.value, d, seen, o)
      case Struct(_, fs) => StructMaskedAs(w, fs, d, seen, o)
      case Scalar(_) => false
      case Array(_, _, _) => ElemsMaskedAs(w, Elems(w, v), d, seen, o)
      case Slice(_, _, _) => ElemsMaskedAs(w, Elems(w, v), d, seen, o)
      case Map(_, _, _) => EntriesMaskedAs(w, Entries(w, v), d, seen, o)
  }

  ghost predicate ElemsMaskedAs(w: World, es: seq<Value>, d: nat, seen: set<nat>, o: Out)
    requires d <= MAX_DEPTH
    decreases Left(d + 1), Addrs(w) - seen, es, 2
  {
    && o.List?
    && |o.items| == |es|
    && forall i :: 0 <= i < |es| ==>
         if Changes(w, es[i], d + 1, seen) then MaskedAs(w, es[i], d + 1, seen, o.items[i])
         else o.items[i] == Raw(es[i])
  }

  ghost predicate EntriesMaskedAs(w: World, es: seq<Entry>, d: nat, seen: set<nat>, o: Out)
    requires d <= MAX_DEPTH
    decreases Left(d + 1), Addrs(w) - seen, es, 4
  {
    && o.Obj?
    && (forall e :: e in es ==> KeyName(e.key).Some? && KeyName(e.key).value in o.members)
    && forall n :: n in o.members ==> NameMaskedAs(w, es, d, seen, n, o.members[n])
  }

  /** Under name n stands one of the entries spelled n, a rewritten one if there is any. */
  ghost predicate NameMaskedAs(w: World, es: seq<Entry>, d: nat, seen: set<nat>, n: string, o: Out)
    requires d <= MAX_DEPTH
    decreases Left(d + 1), Addrs(w) - seen, es, 3
  {
    exists e :: e in es && KeyName(e.key) == Some(n)
      && if EntryChanges(w, e, d, seen) then EntryMaskedAs(w, e, d, seen, o)
         else o == Raw(e.value) && QuietName(w, es, d, seen, n)
  }

  ghost predicate QuietName(w: World, es: seq<Entry>, d: nat, seen: set<nat>, n: string)
    requires d <= MAX_DEPTH
  {
    forall e :: e in es && KeyName(e.key) == Some(n) ==> !EntryChanges(w, e, d, seen)
  }

  ghost predicate EntryMaskedAs(w: World, e: Entry, d: nat, seen: set<nat>, o: Out)
    requires d <= MAX_DEPTH
    decreases Left(d + 1), Addrs(w) - seen, e, 2
  {
    if HitKey(w, e.key) then o == Stars else MaskedAs(w, e.value, d + 1, seen, o)
  }

  /** The last rewritten member spelled n among the first i fields, or -1. */
  ghost function LastChanged(w: World, fs: seq<Field>, d: nat, seen: set<nat>, i: nat, n: string): (k: int)
    requires i <= |fs| && d <= MAX_DEPTH
    ensures -1 <= k < i
    ensures k >= 0 ==> MemberChanges(w, fs[k], d, seen) && FieldName(fs[k]) == n
  {
    if i == 0 then -1
    else if MemberChanges(w, fs[i - 1], d, seen) && FieldName(fs[i - 1]) == n then i - 1
    else LastChanged(w, fs, d, seen, i - 1, n)
  }

  /** The last member spelled n whose value can be handed back, or -1. */
  ghost function LastRaw(fs: seq<Field>, i: nat, n: string): (k: int)
    requires i <= |fs|
    ensures -1 <= k < i
    ensures k >= 0 ==> Member(fs[k]) && fs[k].exported && FieldName(fs[k]) == n
  {
    if i == 0 then -1
    else if Member(fs[i - 1]) && fs[i - 1].exported && FieldName(fs[i - 1]) == n then i - 1
    else LastRaw(fs, i - 1, n)
  }

  ghost predicate StructMaskedAs(w: World, fs: seq<Field>, d: nat, seen: set<nat>, o: Out)
    requires d <= MAX_DEPTH
    decreases Left(d), Addrs(w) - seen, fs, 2
  {
    && o.Obj?
    && exists level: Members, subs: seq<Members> ::
         && LevelMaskedAs(w, fs, d, seen, level)
         && |subs| == |fs|
         && (forall i :: 0 <= i < |fs| ==> EmbedMaskedAs(w, fs[i], d, seen, subs[i]))
         && o.members == MergeAll(level, subs)
  }

  /** The named members of one level: of equal names the last rewritten one wins. */
  ghost predicate LevelMaskedAs(w: World, fs: seq<Field>, d: nat, seen: set<nat>, level: Members)
    requires d <= MAX_DEPTH
    decreases Left(d), Addrs(w) - seen, fs, 1
  {
    && (forall i :: 0 <= i < |fs| && Member(fs[i]) ==> FieldName(fs[i]) in level)
    && forall n :: n in level ==>
         var c := LastChanged(w, fs, d, seen, |fs|, n);
         var k := LastRaw(fs, |fs|, n);
         if c >= 0 then MemberMaskedAs(w, fs[c], d, seen, level[n])
         else k >= 0 && level[n] == Raw(fs[k].value)
  }

  ghost predicate MemberMaskedAs(w: World, f: Field, d: nat, seen: set<nat>, o: Out)
    requires d <= MAX_DEPTH
    decreases Left(d), Addrs(w) - seen, f, 3
  {
    if HitField(w, f) then o == Stars
    else if !f.exported then UnexportedMaskedAs(w, f.value, d + 1, seen, o)
    else MaskedAs(w, f.value, d + 1, seen, o)
  }

  ghost predicate UnexportedMaskedAs(w: World, v: Value, d: nat, seen: set<nat>, o: Out)
    decreases Left(d), Addrs(w) - seen, v, 2
  {
    if d > MAX_DEPTH then o == Stars
    else match v
      case Ptr(_, r) =>
        if r !in w.ptrs then o == Null
        else if w.ptrs[r].addr in seen then o == Stars
        else RebuiltAs(w, w.ptrs[r].value, d, seen + {w.ptrs[r].addr}, o)
      case _ => RebuiltAs(w, v, d, seen, o)
  }

  ghost predicate RebuiltAs(w: World, v: Value, d: nat, seen: set<nat>, o: Out)
    requires d <= MAX_DEPTH
    decreases Left(d), Addrs(w) - seen, v, 1
  {
    if !v.Struct? then o == Stars
    else if StructChanges(w, v.fields, d, seen) then StructMaskedAs(w, v.fields, d, seen, o)
    else o == Obj(FlatRaw(w, v, MAX_DEPTH))
  }

  /** What one embedded field contributes to the flattened object. */
  ghost predicate EmbedMaskedAs(w: World, f: Field, d: nat, seen: set<nat>, sub: Members)
    requires d <= MAX_DEPTH
    decreases Left(d), Addrs(w) - seen, f, 3
  {
    if !Flattened(f) then sub == map[]
    else if !EmbedChanges(w, f, d, seen) then sub == FlatRaw(w, f.value, MAX_DEPTH)
    else match f.value
      case Ptr(_, r) =>
        && r in w.ptrs
        && if w.ptrs[r].addr in seen then sub == map[f.name := Stars]
           else StructMaskedAs(w, FieldsOf(w, f.value), d, seen + {w.ptrs[r].addr}, Obj(sub))
      case Struct(_, fs) => StructMaskedAs(w, fs, d, seen, Obj(sub))
      case _ => false
  }
}
