/** Field-name matching of the log masker: splitting a key into words and looking
    suffix groups or windows of words up in the blacklist.

    Go works on the bytes of a key; a key here is the sequence of those bytes, one
    `char` per byte. */
module MaskKey {
  import opened Common

  const BUF_SIZE := 64
  const MAX_WORDS := 12

  predicate IsUpper(c: char) { 'A' <= c <= 'Z' }
  predicate IsLower(c: char) { 'a' <= c <= 'z' }
  predicate IsDigit(c: char) { '0' <= c <= '9' }
  predicate IsSeparator(c: char) { c == '_' || c == '-' || c == '.' || c == ' ' }

  function ToLower(c: char): char {
    if IsUpper(c) then (c as int + 32) as char else c
  }

  // ---------------------------------------------------------------------------
  // The unbounded rule
  // ---------------------------------------------------------------------------

  /** A word begins at position i: after a separator, or at a camelCase hump. */
  predicate Boundary(key: string, i: nat)
    requires i < |key|
  {
    && !IsSeparator(key[i])
    && (|| i == 0
        || IsSeparator(key[i - 1])
        || (IsUpper(key[i]) && Hump(key, i)))
  }

  predicate Hump(key: string, i: nat)
    requires 0 < i < |key|
  {
    || IsLower(key[i - 1])
    || IsDigit(key[i - 1])
    || (IsUpper(key[i - 1]) && i + 1 < |key| && IsLower(key[i + 1]))
  }

  /** The lower-cased words of the first i bytes of key. */
  function WordsUpTo(key: string, i: nat): (ws: seq<string>)
    requires i <= |key|
    ensures i > 0 && !IsSeparator(key[i - 1]) ==> ws != []
    ensures forall k :: 0 <= k < |ws| ==> ws[k] != []
  {
    if i == 0 then []
    else
      var ws := WordsUpTo(key, i - 1);
      if IsSeparator(key[i - 1]) then ws else PushByte(ws, Boundary(key, i - 1), ToLower(key[i - 1]))
  }

  /** One more byte: the beginning of a word, or a further byte of the last one. */
  function PushByte(ws: seq<string>, begins: bool, c: char): seq<string>
    requires begins || ws != []
  {
    if begins then ws + [[c]] else ws[..|ws| - 1] + [ws[|ws| - 1] + [c]]
  }

  function Words(key: string): seq<string> {
    WordsUpTo(key, |key|)
  }

  function Flatten(ws: seq<string>): string {
    if ws == [] then [] else Flatten(ws[..|ws| - 1]) + ws[|ws| - 1]
  }

  /** Some group of trailing words, joined, is in the blacklist. */
  predicate SuffixHit(keys: set<string>, key: string) {
    var ws := Words(key);
    exists i :: 0 <= i < |ws| && Flatten(ws[i..]) in keys
  }

  /** Some contiguous window of words, joined, is in the blacklist. */
  predicate WindowHit(keys: set<string>, key: string) {
    var ws := Words(key);
    exists i, j :: 0 <= i < j <= |ws| && Flatten(ws[i..j]) in keys
  }

  // ---------------------------------------------------------------------------
  // Flat layout: the normalized bytes and the offset of each word in them
  // ---------------------------------------------------------------------------

  function NormUpTo(key: string, i: nat): string
    requires i <= |key|
  {
    if i == 0 then []
    else NormUpTo(key, i - 1) + if IsSeparator(key[i - 1]) then [] else [ToLower(key[i - 1])]
  }

  function Norm(key: string): string { NormUpTo(key, |key|) }

  function StartsUpTo(key: string, i: nat): seq<int>
    requires i <= |key|
  {
    if i == 0 then []
    else StartsUpTo(key, i - 1) + if Boundary(key, i - 1) then [|NormUpTo(key, i - 1)|] else []
  }

  lemma {:induction false} FlattenConcat(a: seq<string>, b: seq<string>)
    ensures Flatten(a + b) == Flatten(a) + Flatten(b)
  {
    if b == [] {
      assert a + b == a;
    } else {
      var init, last := b[..|b| - 1], b[|b| - 1];
      FlattenConcat(a, init);
      assert (a + b)[..|a + b| - 1] == a + init;
      assert (Flatten(a) + Flatten(init)) + last == Flatten(a) + (Flatten(init) + last);
    }
  }

  lemma FlattenPush(ws: seq<string>, begins: bool, c: char)
    requires begins || ws != []
    ensures Flatten(PushByte(ws, begins, c)) == Flatten(ws) + [c]
  {
    if begins {
      assert (ws + [[c]])[..|ws|] == ws;
    } else {
      var init, grown := ws[..|ws| - 1], ws[|ws| - 1] + [c];
      assert (init + [grown])[..|init|] == init;
    }
  }

  lemma {:induction false} FlatIsNorm(key: string, i: nat)
    requires i <= |key|
    ensures Flatten(WordsUpTo(key, i)) == NormUpTo(key, i)
  {
    if i > 0 {
      FlatIsNorm(key, i - 1);
      if !IsSeparator(key[i - 1]) {
        FlattenPush(WordsUpTo(key, i - 1), Boundary(key, i - 1), ToLower(key[i - 1]));
      }
    }
  }

  lemma {:induction false} OneStartPerWord(key: string, i: nat)
    requires i <= |key|
    ensures |StartsUpTo(key, i)| == |WordsUpTo(key, i)| <= |NormUpTo(key, i)| <= i
  {
    if i > 0 { OneStartPerWord(key, i - 1); }
  }

  /** One more character moves no word that is already complete, and no offset. */
  lemma OffsetsStay(key: string, i: nat, k: nat)
    requires 0 < i <= |key| && k <= |WordsUpTo(key, i - 1)|
    requires k < |WordsUpTo(key, i)|
    ensures WordsUpTo(key, i)[..k] == WordsUpTo(key, i - 1)[..k]
    ensures |StartsUpTo(key, i)| == |WordsUpTo(key, i)|
    ensures |StartsUpTo(key, i - 1)| == |WordsUpTo(key, i - 1)|
    ensures k < |WordsUpTo(key, i - 1)| ==> StartsUpTo(key, i)[k] == StartsUpTo(key, i - 1)[k]
    ensures k == |WordsUpTo(key, i - 1)| ==> StartsUpTo(key, i)[k] == |NormUpTo(key, i - 1)|
  {
    OneStartPerWord(key, i);
    OneStartPerWord(key, i - 1);
  }

  lemma {:induction false} StartIsOffset(key: string, i: nat, k: nat)
    requires i <= |key| && k < |WordsUpTo(key, i)|
    ensures |StartsUpTo(key, i)| == |WordsUpTo(key, i)|
    ensures StartsUpTo(key, i)[k] == |Flatten(WordsUpTo(key, i)[..k])|
  {
    if i > 0 {
      var ws := WordsUpTo(key, i - 1);
      OffsetsStay(key, i, k);
      if k < |ws| {
        StartIsOffset(key, i - 1, k);
      } else {
        assert ws[..k] == ws;
        FlatIsNorm(key, i - 1);
      }
    }
  }

  /** The words laid end to end are the normalized key, and each recorded offset is
      where its word begins. */
  lemma LayoutIsWords(key: string)
    ensures Flatten(Words(key)) == Norm(key)
    ensures |StartsUpTo(key, |key|)| == |Words(key)| <= |Norm(key)| <= |key|
    ensures forall k :: 0 <= k < |Words(key)| ==>
                          StartsUpTo(key, |key|)[k] == |Flatten(Words(key)[..k])|
  {
    FlatIsNorm(key, |key|);
    OneStartPerWord(key, |key|);
    forall k | 0 <= k < |Words(key)|
      ensures StartsUpTo(key, |key|)[k] == |Flatten(Words(key)[..k])|
    {
      StartIsOffset(key, |key|, k);
    }
  }

  /** The bytes of one window are a slice of the normalized key. */
  lemma WindowIsSlice(key: string, i: nat, j: nat)
    requires i < j <= |Words(key)|
    ensures |StartsUpTo(key, |key|)| == |Words(key)|
    ensures var starts := StartsUpTo(key, |key|);
            var end := if j < |starts| then starts[j] else |Norm(key)|;
            0 <= starts[i] <= end <= |Norm(key)| && Flatten(Words(key)[i..j]) == Norm(key)[starts[i]..end]
  {
    LayoutIsWords(key);
    var ws := Words(key);
    FlattenConcat(ws[..i], ws[i..j]);
    assert ws[..i] + ws[i..j] == ws[..j];
    FlattenConcat(ws[..j], ws[j..]);
    assert ws[..j] + ws[j..] == ws;
    if j == |ws| { assert ws[..j] == ws; }
  }

  // ---------------------------------------------------------------------------
  // Splitting into caller-supplied buffers
  // ---------------------------------------------------------------------------

  method Split(key: string, buf: array<char>, starts: array<int>) returns (n: nat, wc: nat, ok: bool)
    modifies buf, starts
    ensures ok <==> |Norm(key)| <= buf.Length && |Words(key)| <= starts.Length
    ensures ok ==> n == |Norm(key)| && n <= buf.Length && buf[..n] == Norm(key)
    ensures ok ==> wc == |Words(key)| && wc <= starts.Length && starts[..wc] == StartsUpTo(key, |key|)
    ensures !ok ==> n == 0 && wc == 0
  {
    n, wc := 0, 0;
    var newWord := true;
    var i := 0;
    while i < |key|
      invariant 0 <= i <= |key|
      invariant newWord <==> i == 0 || IsSeparator(key[i - 1])
      invariant n <= buf.Length && buf[..n] == NormUpTo(key, i)
      invariant wc <= starts.Length && starts[..wc] == StartsUpTo(key, i)
    {
      var c := key[i];
      if IsSeparator(c) {
        newWord := true;
        i := i + 1;
        continue;
      }
      if IsUpper(c) {
        if !newWord {
          var prev := key[i - 1];
          if IsLower(prev) || IsDigit(prev) {
            newWord := true;
          } else if IsUpper(prev) && i + 1 < |key| && IsLower(key[i + 1]) {
            newWord := true;
          }
        }
        c := ToLower(c);
      }
      assert newWord == Boundary(key, i);
      Capacity(key, i);
      if newWord {
        if wc >= starts.Length {
          return 0, 0, false;
        }
        starts[wc] := n;
        wc := wc + 1;
        newWord := false;
      }
      if n >= buf.Length {
        return 0, 0, false;
      }
      buf[n] := c;
      n := n + 1;
      i := i + 1;
    }
    LayoutIsWords(key);
    ok := true;
  }

  /** What position i adds counts towards the whole. */
  lemma Capacity(key: string, i: nat)
    requires i < |key|
    ensures !IsSeparator(key[i]) ==> |NormUpTo(key, i)| < |Norm(key)|
    ensures Boundary(key, i) ==> |StartsUpTo(key, i)| < |Words(key)|
  {
    GrowsWithPrefix(key, i + 1, |key|);
    OneStartPerWord(key, |key|);
  }

  lemma {:induction false} GrowsWithPrefix(key: string, i: nat, j: nat)
    requires i <= j <= |key|
    ensures |NormUpTo(key, i)| <= |NormUpTo(key, j)|
    ensures |StartsUpTo(key, i)| <= |StartsUpTo(key, j)|
    decreases j
  {
    if i < j { GrowsWithPrefix(key, i, j - 1); }
  }

  /** The whole key normalized, as the blacklist stores it. */
  method Normalize(k: string) returns (r: string)
    ensures r == Norm(k)
  {
    if k == "" {
      return "";
    }
    var buf, starts := new char[|k|], new int[|k|];
    var n, wc, ok := Split(k, buf, starts);
    LayoutIsWords(k);
    r := buf[..n];
  }

  // ---------------------------------------------------------------------------
  // Lookups
  // ---------------------------------------------------------------------------

  /** Suffix lookup with the stack-sized buffers, falling back when they overflow. */
  method Hit(keys: set<string>, key: string) returns (found: bool)
    ensures found == SuffixHit(keys, key)
  {
    if key == "" {
      return false;
    }
    var buf, starts := new char[BUF_SIZE], new int[MAX_WORDS];
    var n, wc, ok := Split(key, buf, starts);
    if !ok {
      found := HitSlow(keys, key);
      return;
    }
    found := MatchSuffix(keys, key, buf, starts, n, wc);
  }

  /** The overflow path; its buffers hold arbitrary bytes, as pooled ones do. */
  method HitSlow(keys: set<string>, key: string) returns (found: bool)
    ensures found == SuffixHit(keys, key)
  {
    var buf, starts := new char[|key|], new int[|key|];
    var n, wc, ok := Split(key, buf, starts);
    LayoutIsWords(key);
    found := MatchSuffix(keys, key, buf, starts, n, wc);
  }

  method MatchSuffix(keys: set<string>, ghost key: string, buf: array<char>, starts: array<int>, n: nat, wc: nat)
    returns (found: bool)
    requires n <= buf.Length && buf[..n] == Norm(key)
    requires wc == |Words(key)| <= starts.Length && starts[..wc] == StartsUpTo(key, |key|)
    ensures found == SuffixHit(keys, key)
  {
    ghost var ws := Words(key);
    var i := wc - 1;
    while i >= 0
      invariant -1 <= i < wc
      invariant forall k :: i < k < wc ==> Flatten(ws[k..]) !in keys
    {
      WindowIsSlice(key, i, wc);
      assert ws[i..wc] == ws[i..];
      assert starts[i] == starts[..wc][i];
      assert buf[starts[i]..n] == buf[..n][starts[i]..n];
      if buf[starts[i]..n] in keys {
        return true;
      }
      i := i - 1;
    }
    return false;
  }

  method HitWindow(keys: set<string>, key: string) returns (found: bool)
    ensures found == WindowHit(keys, key)
  {
    if key == "" {
      return false;
    }
    var buf, starts := new char[BUF_SIZE], new int[MAX_WORDS];
    var n, wc, ok := Split(key, buf, starts);
    if !ok {
      buf, starts := new char[|key|], new int[|key|];
      n, wc, ok := Split(key, buf, starts);
      LayoutIsWords(key);
    }
    found := MatchWindow(keys, key, buf, starts, n, wc);
  }

  lemma SameSlice(buf: array<char>, n: nat, from: nat, to: nat, text: string)
    requires n <= buf.Length && buf[..n] == text && from <= to <= n
    ensures buf[from..to] == text[from..to]
  {
    forall k | 0 <= k < to - from ensures buf[from..to][k] == text[from..to][k] {
      assert buf[..n][from + k] == buf[from + k];
    }
  }

  method MatchWindow(keys: set<string>, ghost key: string, buf: array<char>, starts: array<int>, n: nat, wc: nat)
    returns (found: bool)
    requires n <= buf.Length && buf[..n] == Norm(key)
    requires n == |Norm(key)|
    requires wc == |Words(key)| <= starts.Length && starts[..wc] == StartsUpTo(key, |key|)
    ensures found == WindowHit(keys, key)
  {
    ghost var ws := Words(key);
    for i := 0 to wc
      invariant forall a, b :: 0 <= a < i && a < b <= wc ==> Flatten(ws[a..b]) !in keys
    {
      for j := i + 1 to wc + 1
        invariant forall b :: i < b < j ==> Flatten(ws[i..b]) !in keys
      {
        WindowIsSlice(key, i, j);
        ghost var at := StartsUpTo(key, |key|);
        assert starts[i] == at[i];
        var end := n;
        if j < wc {
          end := starts[j];
          assert end == at[j];
        }
        SameSlice(buf, n, at[i], end, Norm(key));
        if buf[starts[i]..end] in keys {
          return true;
        }
      }
    }
    return false;
  }

  // ---------------------------------------------------------------------------
  // Algebra of splitting
  // ---------------------------------------------------------------------------

  lemma {:induction false} WordsOfPrefix(p: string, s: char, r: string, i: nat)
    requires IsSeparator(s) && i <= |p|
    ensures WordsUpTo(p + [s] + r, i) == WordsUpTo(p, i)
  {
    if i > 0 {
      WordsOfPrefix(p, s, r, i - 1);
      var key := p + [s] + r;
      assert key[i - 1] == p[i - 1];
      assert i > 1 ==> key[i - 2] == p[i - 2];
      assert i < |p| ==> key[i] == p[i];
      assert i == |p| ==> key[i] == s;
      assert Boundary(key, i - 1) == Boundary(p, i - 1);
    }
  }

  lemma BoundaryOfRest(p: string, s: char, r: string, j: nat)
    requires IsSeparator(s) && j < |r|
    ensures (p + [s] + r)[|p| + 1 + j] == r[j]
    ensures Boundary(p + [s] + r, |p| + 1 + j) == Boundary(r, j)
  {
    var key, at := p + [s] + r, |p| + 1 + j;
    assert key[at] == r[j];
    assert key[at - 1] == if j == 0 then s else r[j - 1];
    assert j + 1 < |r| ==> key[at + 1] == r[j + 1];
  }

  lemma {:induction false} WordsOfRest(key: string, p: string, s: char, r: string, j: nat)
    requires IsSeparator(s) && j <= |r| && key == p + [s] + r
    ensures WordsUpTo(key, |p| + 1 + j) == Words(p) + WordsUpTo(r, j)
  {
    if j == 0 {
      WordsAtSeparator(key, p, s, r);
      NothingAfter(Words(p));
    } else {
      WordsOfRest(key, p, s, r, j - 1);
      BoundaryOfRest(p, s, r, j - 1);
      OneMoreByte(key, |p| + j, r, j - 1, Words(p));
    }
  }

  lemma WordsAtSeparator(key: string, p: string, s: char, r: string)
    requires IsSeparator(s) && key == p + [s] + r
    ensures WordsUpTo(key, |p| + 1) == Words(p)
  {
    WordsOfPrefix(p, s, r, |p|);
    SeparatorAddsNothing(key, |p|);
  }

  lemma NothingAfter(ws: seq<string>)
    ensures ws + [] == ws
  {}

  lemma SeparatorAddsNothing(key: string, i: nat)
    requires i < |key| && IsSeparator(key[i])
    ensures WordsUpTo(key, i + 1) == WordsUpTo(key, i)
  {}

  lemma OneMoreByte(key: string, at: nat, r: string, j: nat, before: seq<string>)
    requires at < |key| && j < |r| && key[at] == r[j] && Boundary(key, at) == Boundary(r, j)
    requires WordsUpTo(key, at) == before + WordsUpTo(r, j)
    ensures WordsUpTo(key, at + 1) == before + WordsUpTo(r, j + 1)
  {
    if !IsSeparator(r[j]) {
      PushByteConcat(before, WordsUpTo(r, j), Boundary(r, j), ToLower(r[j]));
    }
  }

  lemma PushByteConcat(a: seq<string>, b: seq<string>, begins: bool, c: char)
    requires begins || b != []
    ensures PushByte(a + b, begins, c) == a + PushByte(b, begins, c)
  {
    if !begins {
      assert (a + b)[..|a + b| - 1] == a + b[..|b| - 1];
    }
  }

  /** Splitting at a separator: the words of the two sides, one after the other. */
  lemma WordsConcat(p: string, s: char, r: string)
    requires s == '_' || s == '-' || s == '.' || s == ' '
    ensures Words(p + [s] + r) == Words(p) + Words(r)
  {
    WordsOfRest(p + [s] + r, p, s, r, |r|);
  }

  /** Any scope joined to a blacklisted name by a separator is caught. */
  lemma PrefixedEntryHits(keys: set<string>, p: string, s: char, entry: string)
    requires s == '_' || s == '-' || s == '.' || s == ' '
    requires Norm(entry) != [] && Norm(entry) in keys
    ensures SuffixHit(keys, p + [s] + entry)
    ensures SuffixHit(keys, entry)
  {
    WordsConcat(p, s, entry);
    LayoutIsWords(entry);
    var ws := Words(p + [s] + entry);
    assert ws[|Words(p)|..] == Words(entry);
    assert Words(entry)[0..] == Words(entry);
  }

  // ---------------------------------------------------------------------------
  // Splitting at humps
  // ---------------------------------------------------------------------------

  /** A camelCase hump between b and c, where c is followed by `next` if by anything. */
  predicate HumpAt(b: char, c: char, next: Option<char>) {
    && 'A' <= c <= 'Z'
    && ('a' <= b <= 'z' || '0' <= b <= '9'
        || ('A' <= b <= 'Z' && next.Some? && 'a' <= next.value <= 'z'))
  }

  function CharAt(s: string, i: nat): Option<char> { if i < |s| then Some(s[i]) else None }

  /** A hump joins p and r. */
  predicate HumpJoins(p: string, r: string) {
    p != "" && r != "" && HumpAt(p[|p| - 1], r[0], CharAt(r, 1))
  }

  lemma {:induction false} WordsBeforeHump(p: string, r: string, i: nat)
    requires HumpJoins(p, r) && i <= |p|
    ensures WordsUpTo(p + r, i) == WordsUpTo(p, i)
  {
    if i > 0 {
      WordsBeforeHump(p, r, i - 1);
      BoundaryBeforeHump(p, r, i - 1);
    }
  }

  /** Looking ahead into r never makes a hump: r begins with an upper-case letter. */
  lemma BoundaryBeforeHump(p: string, r: string, i: nat)
    requires HumpJoins(p, r) && i < |p|
    ensures (p + r)[i] == p[i] && Boundary(p + r, i) == Boundary(p, i)
  {
    var key := p + r;
    assert key[i] == p[i];
    assert i > 0 ==> key[i - 1] == p[i - 1];
    assert i + 1 < |key| && key[i + 1] == if i + 1 < |p| then p[i + 1] else r[0];
  }

  lemma BoundaryAfterHump(p: string, r: string, j: nat)
    requires HumpJoins(p, r) && j < |r|
    ensures (p + r)[|p| + j] == r[j] && Boundary(p + r, |p| + j) == Boundary(r, j)
  {
    var key, at := p + r, |p| + j;
    assert key[at] == r[j];
    assert key[at - 1] == if j == 0 then p[|p| - 1] else r[j - 1];
    assert j + 1 < |r| ==> key[at + 1] == r[j + 1];
  }

  lemma {:induction false} WordsAfterHump(key: string, p: string, r: string, j: nat)
    requires HumpJoins(p, r) && j <= |r| && key == p + r
    ensures WordsUpTo(key, |p| + j) == Words(p) + WordsUpTo(r, j)
  {
    if j == 0 {
      WordsBeforeHump(p, r, |p|);
      NothingAfter(Words(p));
    } else {
      WordsAfterHump(key, p, r, j - 1);
      BoundaryAfterHump(p, r, j - 1);
      OneMoreByte(key, |p| + j - 1, r, j - 1, Words(p));
    }
  }

  /** Splitting at a hump: after a lower-case letter or a digit, or before the last capital of
      a run that a lower-case letter follows. */
  lemma WordsAtHump(p: string, r: string)
    requires HumpJoins(p, r)
    ensures Words(p + r) == Words(p) + Words(r)
  {
    WordsAfterHump(p + r, p, r, |r|);
  }

  /** Nothing in the key separates or humps. */
  predicate Unbroken(key: string) {
    && (forall i :: 0 <= i < |key| ==> key[i] != '_' && key[i] != '-' && key[i] != '.' && key[i] != ' ')
    && (forall i {:trigger key[i]} :: 1 <= i < |key| ==> !HumpAt(key[i - 1], key[i], CharAt(key, i + 1)))
  }

  function LowerCase(s: string): (r: string)
    ensures |r| == |s|
    ensures forall i :: 0 <= i < |s| ==> r[i] == if 'A' <= s[i] <= 'Z' then s[i] - 'A' + 'a' else s[i]
  {
    if s == "" then "" else LowerCase(s[..|s| - 1]) + [ToLower(s[|s| - 1])]
  }

  lemma {:induction false} OneWordUpTo(key: string, i: nat)
    requires Unbroken(key) && 0 < i <= |key|
    ensures WordsUpTo(key, i) == [LowerCase(key[..i])]
  {
    assert key[..i][..i - 1] == key[..i - 1];
    if i == 1 {
      assert key[0] != '_';
      assert WordsUpTo(key, 0) == [];
      assert WordsUpTo(key, 1) == [[ToLower(key[0])]];
      assert LowerCase(key[..1]) == [ToLower(key[0])];
    } else {
      OneWordUpTo(key, i - 1);
      InsideWord(key, i - 1);
    }
  }

  lemma InsideWord(key: string, i: nat)
    requires Unbroken(key) && 0 < i < |key|
    ensures !IsSeparator(key[i]) && !Boundary(key, i)
  {
    assert key[i - 1] != '_';
    assert !HumpAt(key[i - 1], key[i], CharAt(key, i + 1));
  }

  /** Conversely a key in which nothing separates or humps is one word, in lower case: runs of
      letters of one case, digits after letters, and whatever else. */
  lemma UnbrokenIsOneWord(key: string)
    requires Unbroken(key) && key != ""
    ensures Words(key) == [LowerCase(key)]
  {
    OneWordUpTo(key, |key|);
    assert key[..|key|] == key;
  }

  /** Any scope joined to a blacklisted name by a hump is caught: userPassword. */
  lemma HumpedEntryHits(keys: set<string>, p: string, entry: string)
    requires HumpJoins(p, entry) && Norm(entry) in keys
    ensures SuffixHit(keys, p + entry)
  {
    WordsAtHump(p, entry);
    LayoutIsWords(entry);
    BeginsWord(entry);
    assert Words(p + entry)[|Words(p)|..] == Words(entry);
  }

  lemma BeginsWord(key: string)
    requires key != "" && !IsSeparator(key[0])
    ensures Words(key) != []
  {
    WordsStay(key, 1, |key|);
  }

  lemma {:induction false} WordsStay(key: string, i: nat, j: nat)
    requires i <= j <= |key| && WordsUpTo(key, i) != []
    ensures WordsUpTo(key, j) != []
  {
    if i < j {
      WordsStay(key, i, j - 1);
    }
  }

  /** A one-word key hits exactly for itself: no part of a word is looked up. */
  lemma OneWordHitsExactly(keys: set<string>, key: string)
    requires Unbroken(key) && key != ""
    ensures SuffixHit(keys, key) <==> LowerCase(key) in keys
  {
    UnbrokenIsOneWord(key);
    assert Words(key)[0..] == Words(key);
    assert Flatten(Words(key)[..0]) == [];
    assert Flatten(Words(key)) == LowerCase(key);
  }

  /** What a hit in a longer key is: one in its last part, or a group of words that ends with
      all of the last part and begins at a word of the first. */
  lemma HitSplits(keys: set<string>, key: string, p: string, r: string)
    requires Words(key) == Words(p) + Words(r)
    ensures SuffixHit(keys, key) <==>
              SuffixHit(keys, r) || exists i :: 0 <= i < |Words(p)| && Flatten(Words(p)[i..]) + Norm(r) in keys
  {
    LayoutIsWords(r);
    GroupsSplit(keys, Words(p), Words(r));
  }

  /** Some trailing group of ws is listed. */
  ghost predicate GroupHit(keys: set<string>, ws: seq<string>) {
    exists i :: 0 <= i < |ws| && Flatten(ws[i..]) in keys
  }

  lemma GroupOfBoth(a: seq<string>, b: seq<string>, i: nat)
    requires i <= |a + b|
    ensures i <= |a| ==> Flatten((a + b)[i..]) == Flatten(a[i..]) + Flatten(b)
    ensures i >= |a| ==> (a + b)[i..] == b[i - |a|..]
  {
    if i <= |a| {
      assert (a + b)[i..] == a[i..] + b;
      FlattenConcat(a[i..], b);
    }
  }

  lemma GroupsSplit(keys: set<string>, a: seq<string>, b: seq<string>)
    ensures GroupHit(keys, a + b) <==>
              GroupHit(keys, b) || exists i :: 0 <= i < |a| && Flatten(a[i..]) + Flatten(b) in keys
  {
    if i :| 0 <= i < |a + b| && Flatten((a + b)[i..]) in keys {
      GroupOfBoth(a, b, i);
    }
    if i :| 0 <= i < |b| && Flatten(b[i..]) in keys {
      GroupOfBoth(a, b, |a| + i);
    }
    if i :| 0 <= i < |a| && Flatten(a[i..]) + Flatten(b) in keys {
      GroupOfBoth(a, b, i);
    }
  }

  // ---------------------------------------------------------------------------
  // Corrupted tags
  // ---------------------------------------------------------------------------

  /** The characters encoding/json v2 reserves in the name part of a tag. */
  predicate IsReserved(c: char) { c == ',' || c == '\\' || c == '\'' || c == '"' || c == '`' }

  /** Every reserved character replaced by a separator. */
  function ReplaceReserved(tag: string): (r: string)
    ensures |r| == |tag|
    ensures forall i :: 0 <= i < |tag| ==> r[i] == if IsReserved(tag[i]) then '_' else tag[i]
  {
    seq(|tag|, i requires 0 <= i < |tag| => if IsReserved(tag[i]) then '_' else tag[i])
  }

  predicate Clear(s: string) { forall i :: 0 <= i < |s| ==> !IsReserved(s[i]) }

  /** Whatever stands between two breaks of a tag, a break being a reserved character,
      a separator, or an end of the tag. */
  ghost predicate Piece(tag: string, from: nat, to: nat) {
    && from <= to <= |tag|
    && (from == 0 || IsReserved(tag[from - 1]) || IsSeparator(tag[from - 1]))
    && (to == |tag| || IsReserved(tag[to]) || IsSeparator(tag[to]))
  }

  lemma WordsOfPiece(tag: string, from: nat, to: nat) returns (a: nat)
    requires Piece(tag, from, to) && Clear(tag[from..to])
    ensures var ws, piece := Words(ReplaceReserved(tag)), Words(tag[from..to]);
            a + |piece| <= |ws| && ws[a..a + |piece|] == piece
  {
    var full, q := ReplaceReserved(tag), tag[from..to];
    assert full[from..to] == q;
    a := WordsOfTail(full[..to], from);
    assert full[..to][from..] == q;
    WordsOfHead(full, to);
    SliceOfPrefix(Words(full[..to]), Words(full), a, Words(q));
  }

  lemma SliceOfPrefix(h: seq<string>, ws: seq<string>, a: nat, piece: seq<string>)
    requires h <= ws && a <= |h| && h[a..] == piece
    ensures a + |piece| <= |ws| && ws[a..a + |piece|] == piece
  {
    assert h == ws[..|h|];
  }

  /** What follows a separator contributes the last words. */
  lemma WordsOfTail(key: string, from: nat) returns (a: nat)
    requires from <= |key| && (from == 0 || IsSeparator(key[from - 1]))
    ensures a <= |Words(key)| && Words(key)[a..] == Words(key[from..])
  {
    if from == 0 {
      assert key[from..] == key;
      a := 0;
    } else {
      assert key == key[..from - 1] + [key[from - 1]] + key[from..];
      WordsConcat(key[..from - 1], key[from - 1], key[from..]);
      a := |Words(key[..from - 1])|;
    }
  }

  /** What precedes a separator contributes the first words. */
  lemma WordsOfHead(key: string, to: nat)
    requires to <= |key| && (to == |key| || IsSeparator(key[to]))
    ensures Words(key[..to]) <= Words(key)
  {
    if to == |key| {
      assert key[..to] == key;
    } else {
      assert key == key[..to] + [key[to]] + key[to + 1..];
      WordsConcat(key[..to], key[to], key[to + 1..]);
    }
  }

  /** The window rule on the repaired tag catches everything the suffix rule would
      catch on any piece of it, wherever the garbage sits. */
  lemma WindowCoversPieces(keys: set<string>, tag: string, from: nat, to: nat)
    requires Piece(tag, from, to) && Clear(tag[from..to])
    requires SuffixHit(keys, tag[from..to])
    ensures WindowHit(keys, ReplaceReserved(tag))
  {
    var a := WordsOfPiece(tag, from, to);
    var ws, piece := Words(ReplaceReserved(tag)), Words(tag[from..to]);
    var i :| 0 <= i < |piece| && Flatten(piece[i..]) in keys;
    assert ws[a + i..a + |piece|] == piece[i..];
  }

  /** In particular the part before the first reserved character. */
  lemma WindowCoversTruncatedName(keys: set<string>, tag: string, cut: nat)
    requires cut < |tag| && IsReserved(tag[cut]) && Clear(tag[..cut])
    requires SuffixHit(keys, tag[..cut])
    ensures WindowHit(keys, ReplaceReserved(tag))
  {
    assert tag[0..cut] == tag[..cut];
    WindowCoversPieces(keys, tag, 0, cut);
  }

  // ---------------------------------------------------------------------------
  // The blacklist
  // ---------------------------------------------------------------------------

  const BUILTIN: seq<string> := [
    "password", "passwd", "pwd", "old_password", "new_password",
    "password_confirm", "password2", "password_repeat",
    "token", "ulp-token", "access_token", "refresh_token", "id_token",
    "authorization", "cookie", "set-cookie", "session_id", "jwt",
    "secret", "client_secret", "private_key", "api_key",
    "ak", "sk", "access_key", "access_key_id", "secret_key", "secret_access_key",
    "db_url", "dsn", "database_url", "conn_str",
    "id_card", "bank_card", "credit_card", "card_no", "cvv", "phone", "mobile"]

  /** Every built-in entry begins with a letter. */
  lemma BuiltinNamed(i: nat)
    requires i < |BUILTIN|
    ensures BUILTIN[i] != [] && IsLower(BUILTIN[i][0])
  {}

  /** The blacklist for the configured names: the built-in entries and they. */
  ghost predicate Blacklist(keys: set<string>, builtin: seq<string>, extra: seq<string>) {
    forall k :: k in keys <==>
                  || (exists e :: e in builtin && k == Norm(e))
                  || (exists e :: e in extra && k == Norm(e) && k != "")
  }

  lemma {:induction false} NamedHasNorm(key: string, i: nat)
    requires 0 < i <= |key| && !IsSeparator(key[0])
    ensures NormUpTo(key, i) != []
  {
    if i > 1 {
      NamedHasNorm(key, i - 1);
    }
  }

  /** Whatever is configured beside it, a built-in name is masked, alone and under any
      scope joined to it by a separator, and capitalised under any scope that ends in a
      lower-case letter or a digit. */
  lemma BuiltinAlwaysHits(keys: set<string>, extra: seq<string>, i: nat, p: string, s: char)
    requires Blacklist(keys, BUILTIN, extra) && i < |BUILTIN| && (s == '_' || s == '-' || s == '.' || s == ' ')
    ensures SuffixHit(keys, BUILTIN[i]) && SuffixHit(keys, p + [s] + BUILTIN[i])
    ensures BUILTIN[i] != [] && 'a' <= BUILTIN[i][0] <= 'z'
    ensures p != "" && ('a' <= p[|p| - 1] <= 'z' || '0' <= p[|p| - 1] <= '9')
            ==> SuffixHit(keys, p + Capitalised(BUILTIN[i]))
  {
    BuiltinNamed(i);
    BuiltinListed(keys, extra, i);
    EntryAlwaysHits(keys, BUILTIN[i], p, s);
  }

  lemma BuiltinListed(keys: set<string>, extra: seq<string>, i: nat)
    requires Blacklist(keys, BUILTIN, extra) && i < |BUILTIN|
    ensures Norm(BUILTIN[i]) in keys
  {
    assert BUILTIN[i] in BUILTIN;
  }

  /** The same for any listed entry that begins with a lower-case letter. */
  lemma EntryAlwaysHits(keys: set<string>, entry: string, p: string, s: char)
    requires entry != [] && 'a' <= entry[0] <= 'z' && Norm(entry) in keys
    requires s == '_' || s == '-' || s == '.' || s == ' '
    ensures SuffixHit(keys, entry) && SuffixHit(keys, p + [s] + entry)
    ensures p != "" && ('a' <= p[|p| - 1] <= 'z' || '0' <= p[|p| - 1] <= '9')
            ==> SuffixHit(keys, p + Capitalised(entry))
  {
    NamedHasNorm(entry, |entry|);
    PrefixedEntryHits(keys, p, s, entry);
    if p != "" && ('a' <= p[|p| - 1] <= 'z' || '0' <= p[|p| - 1] <= '9') {
      CapitalisedNorm(entry, |entry|);
      HumpedEntryHits(keys, p, Capitalised(entry));
    }
  }

  /** The entry as the second half of a camelCase name. */
  function Capitalised(entry: string): string
    requires entry != [] && 'a' <= entry[0] <= 'z'
  {
    [entry[0] - 'a' + 'A'] + entry[1..]
  }

  lemma {:induction false} CapitalisedNorm(entry: string, i: nat)
    requires entry != [] && 'a' <= entry[0] <= 'z' && i <= |entry|
    ensures NormUpTo(Capitalised(entry), i) == NormUpTo(entry, i)
  {
    if i > 0 {
      CapitalisedNorm(entry, i - 1);
      assert i > 1 ==> Capitalised(entry)[i - 1] == entry[i - 1];
    }
  }

  /** The built-in entries plus the configured ones; the latter can only add. */
  method NewMasker(extra: seq<string>) returns (keys: set<string>)
    ensures Blacklist(keys, BUILTIN, extra)
  {
    keys := WithExtra(BUILTIN, extra);
  }

  method WithExtra(builtin: seq<string>, extra: seq<string>) returns (keys: set<string>)
    ensures Blacklist(keys, builtin, extra)
  {
    keys := {};
    for i := 0 to |builtin|
      invariant forall k :: k in keys <==> exists e :: e in builtin[..i] && k == Norm(e)
    {
      var nk := Normalize(builtin[i]);
      keys := keys + {nk};
      assert builtin[..i + 1] == builtin[..i] + [builtin[i]];
    }
    assert builtin[..|builtin|] == builtin;
    for i := 0 to |extra|
      invariant forall k :: k in keys <==>
                              || (exists e :: e in builtin && k == Norm(e))
                              || (exists e :: e in extra[..i] && k == Norm(e) && k != "")
    {
      var nk := Normalize(extra[i]);
      if nk != "" {
        keys := keys + {nk};
      }
      assert extra[..i + 1] == extra[..i] + [extra[i]];
    }
    assert extra[..|extra|] == extra;
  }
}
