/** The key=value section of a console line: nested maps are flattened to dotted keys and
    every value is quoted where it must be, so that a line stays one line and reads back. */
module Console {
  import opened Common

  datatype Field = Field(key: string, value: string)

  // ---------------------------------------------------------------------------
  // Printing one value
  // ---------------------------------------------------------------------------

  predicate Special(c: char) { c == ' ' || c == '\t' || c == '\r' || c == '\n' || c == '"' || c == '=' }

  predicate Plain(s: string) { forall i :: 0 <= i < |s| ==> !Special(s[i]) }

  function EscapeChar(c: char): string {
    if c == '"' then "\\\"" else if c == '\\' then "\\\\" else if c == '\n' then "\\n"
    else if c == '\r' then "\\r" else if c == '\t' then "\\t" else [c]
  }

  function Escape(s: string): string {
    if s == "" then "" else Escape(s[..|s| - 1]) + EscapeChar(s[|s| - 1])
  }

  function Quoted(s: string): string { "\"" + Escape(s) + "\"" }

  function ValueText(s: string): string {
    if s == "" then "\"\"" else if Plain(s) then s else Quoted(s)
  }

  function LeafText(f: Field): string { f.key + "=" + ValueText(f.value) }

  /** The fields separated by single spaces; `first` is false when a field precedes them. */
  function Section(fields: seq<Field>, first: bool): string {
    if fields == [] then ""
    else (if first then "" else " ") + LeafText(fields[0]) + Section(fields[1..], false)
  }

  lemma {:induction false} EscapeGrows(s: string)
    ensures |Escape(s)| >= |s|
  {
    if s != "" {
      EscapeGrows(s[..|s| - 1]);
    }
  }

  /** A value is written as it is exactly when it is not empty and holds no blank, no line
      break, no quote and no '='. */
  lemma BareExactly(s: string)
    ensures ValueText(s) == s <==>
              s != "" && ' ' !in s && '\t' !in s && '\r' !in s && '\n' !in s && '"' !in s && '=' !in s
  {
    EscapeGrows(s);
  }

  // ---------------------------------------------------------------------------
  // Reading a section back
  // ---------------------------------------------------------------------------

  function Unescape(c: char): Option<char> {
    if c == '"' || c == '\\' then Some(c) else if c == 'n' then Some('\n')
    else if c == 'r' then Some('\r') else if c == 't' then Some('\t') else None
  }

  /** The text up to the closing quote, and what follows it. */
  function ReadQuoted(s: string): (r: Option<(string, string)>)
    ensures r.Some? ==> |r.value.1| < |s|
  {
    if s == "" then None
    else if s[0] == '"' then Some(("", s[1..]))
    else if s[0] == '\\' then
      if |s| < 2 || Unescape(s[1]).None? then None
      else match ReadQuoted(s[2..]) case None => None case Some(p) => Some(([Unescape(s[1]).value] + p.0, p.1))
    else match ReadQuoted(s[1..]) case None => None case Some(p) => Some(([s[0]] + p.0, p.1))
  }

  function ReadValue(s: string): (r: Option<(string, string)>)
    ensures r.Some? ==> |r.value.1| <= |s|
  {
    if s != "" && s[0] == '"' then ReadQuoted(s[1..])
    else Some((s[..FirstOf(s, ' ')], s[FirstOf(s, ' ')..]))
  }

  /** Reads a section: a field, then a space and a field, and so on. */
  function ReadFields(s: string): Option<seq<Field>>
    decreases |s|, 1
  {
    var eq := FirstOf(s, '=');
    if eq == |s| then None
    else match ReadValue(s[eq + 1..])
      case None => None
      case Some(p) => match ReadMore(p.1) case None => None case Some(fs) => Some([Field(s[..eq], p.0)] + fs)
  }

  function ReadMore(s: string): Option<seq<Field>>
    decreases |s|, 0
  {
    if s == "" then Some([]) else if s[0] == ' ' then ReadFields(s[1..]) else None
  }

  function Read(s: string): Option<seq<Field>> { if s == "" then Some([]) else ReadFields(s) }

  // ---------------------------------------------------------------------------
  // The round trip
  // ---------------------------------------------------------------------------

  /** What reading c and then r yields. */
  function Prepend(c: char, r: Option<(string, string)>): Option<(string, string)> {
    match r case None => None case Some(p) => Some(([c] + p.0, p.1))
  }

  lemma ReadPair(d: char, rest: string)
    requires Unescape(d).Some?
    ensures ReadQuoted(['\\', d] + rest) == Prepend(Unescape(d).value, ReadQuoted(rest))
  {
    assert (['\\', d] + rest)[2..] == rest;
  }

  lemma ReadPlain(c: char, rest: string)
    requires c != '\\' && c != '"'
    ensures ReadQuoted([c] + rest) == Prepend(c, ReadQuoted(rest))
  {
    assert ([c] + rest)[1..] == rest;
  }

  lemma ReadOne(c: char, rest: string)
    ensures ReadQuoted(EscapeChar(c) + rest) == Prepend(c, ReadQuoted(rest))
  {
    if |EscapeChar(c)| == 2 {
      assert EscapeChar(c) == ['\\', EscapeChar(c)[1]];
      ReadPair(EscapeChar(c)[1], rest);
    } else {
      ReadPlain(c, rest);
    }
  }

  lemma EscapeSplit(v: string, rest: string)
    requires v != ""
    ensures Escape(v) + rest == Escape(v[..|v| - 1]) + (EscapeChar(v[|v| - 1]) + rest)
  {}

  /** Reading an escaped text and then rest yields the text itself. */
  ghost predicate ReadsAs(s: string, v: string, r: Option<(string, string)>) {
    r.Some? ==> ReadQuoted(s) == Some((v + r.value.0, r.value.1))
  }

  lemma ReadsSnoc(s: string, init: string, c: char, r: Option<(string, string)>)
    requires ReadsAs(s, init, Prepend(c, r))
    ensures ReadsAs(s, init + [c], r)
  {
    if r.Some? {
      assert init + ([c] + r.value.0) == init + [c] + r.value.0;
    }
  }

  lemma {:induction false} ReadEscaped(v: string, rest: string)
    ensures ReadsAs(Escape(v) + rest, v, ReadQuoted(rest))
    decreases |v|
  {
    if v == "" {
      assert Escape(v) + rest == rest;
      if ReadQuoted(rest).Some? {
        assert v + ReadQuoted(rest).value.0 == ReadQuoted(rest).value.0;
      }
    } else {
      var init, c := v[..|v| - 1], v[|v| - 1];
      EscapeSplit(v, rest);
      ReadOne(c, rest);
      ReadEscaped(init, EscapeChar(c) + rest);
      ReadsSnoc(Escape(v) + rest, init, c, ReadQuoted(rest));
      assert init + [c] == v;
    }
  }

  lemma QuotedBack(v: string, rest: string)
    ensures ReadValue(Quoted(v) + rest) == Some((v, rest))
  {
    var closing := "\"" + rest;
    assert closing[1..] == rest;
    assert ReadQuoted(closing) == Some(("", rest));
    ReadEscaped(v, closing);
    assert (Quoted(v) + rest)[1..] == Escape(v) + closing;
    assert v + "" == v;
  }

  lemma {:induction false} FindPast(s: string, rest: string, c: char)
    requires c !in s && (rest == "" || rest[0] == c)
    ensures FirstOf(s + rest, c) == |s|
  {
    if s == "" {
      assert s + rest == rest;
    } else {
      FindPast(s[1..], rest, c);
      assert (s + rest)[1..] == s[1..] + rest;
    }
  }

  /** rest is what may follow a value. */
  predicate Follows(rest: string) { rest == "" || rest[0] == ' ' }

  lemma ValueBack(v: string, rest: string)
    requires Follows(rest)
    ensures ReadValue(ValueText(v) + rest) == Some((v, rest))
  {
    if v == "" {
      assert Quoted(v) == ValueText(v);
      QuotedBack(v, rest);
    } else if Plain(v) {
      FindPast(v, rest, ' ');
      assert (v + rest)[..|v|] == v && (v + rest)[|v|..] == rest;
      assert (v + rest)[0] == v[0];
    } else {
      QuotedBack(v, rest);
    }
  }

  lemma KeyBack(f: Field, rest: string)
    requires '=' !in f.key
    ensures var s := LeafText(f) + rest;
            FirstOf(s, '=') == |f.key| < |s| && s[..|f.key|] == f.key && s[|f.key| + 1..] == ValueText(f.value) + rest
  {
    var after := "=" + (ValueText(f.value) + rest);
    FindPast(f.key, after, '=');
    assert LeafText(f) + rest == f.key + after;
    assert after[1..] == ValueText(f.value) + rest;
  }

  ghost predicate GoodKeys(fields: seq<Field>) { forall i :: 0 <= i < |fields| ==> '=' !in fields[i].key }

  lemma {:induction false} MoreBack(fields: seq<Field>)
    requires GoodKeys(fields)
    ensures ReadMore(Section(fields, false)) == Some(fields) && Follows(Section(fields, false))
    decreases |fields|, 0
  {
    if fields != [] {
      var text := LeafText(fields[0]) + Section(fields[1..], false);
      assert Section(fields, false) == " " + text;
      assert (" " + text)[1..] == text;
      FieldsBack(fields);
    }
  }

  lemma ReadStep(s: string, eq: nat, value: string, rest: string, more: seq<Field>)
    requires FirstOf(s, '=') == eq < |s| && ReadValue(s[eq + 1..]) == Some((value, rest))
    requires ReadMore(rest) == Some(more)
    ensures ReadFields(s) == Some([Field(s[..eq], value)] + more)
  {}

  lemma {:induction false} FieldsBack(fields: seq<Field>)
    requires GoodKeys(fields) && fields != []
    ensures ReadFields(LeafText(fields[0]) + Section(fields[1..], false)) == Some(fields)
    decreases |fields|, -1
  {
    var first, more := fields[0], fields[1..];
    var rest := Section(more, false);
    MoreBack(more);
    KeyBack(first, rest);
    ValueBack(first.value, rest);
    ReadStep(LeafText(first) + rest, |first.key|, first.value, rest, more);
    assert [first] + more == fields;
  }

  /** Whatever the values, a section reads back as exactly its fields. */
  lemma SectionReadsBack(fields: seq<Field>)
    requires GoodKeys(fields)
    ensures Read(Section(fields, true)) == Some(fields)
  {
    if fields != [] {
      var text := LeafText(fields[0]) + Section(fields[1..], false);
      assert Section(fields, true) == text;
      KeyBack(fields[0], Section(fields[1..], false));
      FieldsBack(fields);
    }
  }

  // ---------------------------------------------------------------------------
  // One line
  // ---------------------------------------------------------------------------

  predicate OneLine(s: string) { '\n' !in s && '\r' !in s }

  lemma {:induction false} EscapeOneLine(s: string)
    ensures OneLine(Escape(s))
  {
    if s != "" {
      EscapeOneLine(s[..|s| - 1]);
      assert OneLine(EscapeChar(s[|s| - 1]));
    }
  }

  lemma ValueOneLine(s: string)
    ensures OneLine(ValueText(s))
  {
    EscapeOneLine(s);
  }

  /** No value contributes a line break: a section breaks a line only where a key does. */
  lemma {:induction false} SectionOneLine(fields: seq<Field>, first: bool)
    ensures OneLine(Section(fields, first)) <==> forall i :: 0 <= i < |fields| ==> OneLine(fields[i].key)
  {
    if fields != [] {
      SectionOneLine(fields[1..], false);
      ValueOneLine(fields[0].value);
      LeafOneLine(fields[0]);
      var sep := if first then "" else " ";
      assert OneLine(Section(fields, first))
        <==> OneLine(sep + LeafText(fields[0])) && OneLine(Section(fields[1..], false));
      assert OneLine(sep + LeafText(fields[0])) <==> OneLine(LeafText(fields[0]));
      assert forall i :: 1 <= i < |fields| ==> fields[1..][i - 1] == fields[i];
    }
  }

  lemma LeafOneLine(f: Field)
    ensures OneLine(LeafText(f)) <==> OneLine(f.key)
  {
    ValueOneLine(f.value);
    var tail := "=" + ValueText(f.value);
    assert LeafText(f) == f.key + tail;
    assert OneLine(tail);
  }
}
