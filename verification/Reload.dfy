/** Configuration reload: which leaves changed, and how far a running process follows. */
module Reload {
  import opened Common

  type Value = string

  /** A loaded configuration, by leaf path. */
  type Config = map<string, Value>

  datatype Level = Debug | Info | Warn | Error

  const LOG_LEVEL: string := "log.level"
  const APP: string := "app"

  // ---------------------------------------------------------------------------
  // Changed paths
  // ---------------------------------------------------------------------------

  /** The leaf at path is not the same in both. */
  predicate Differs(before: Config, after: Config, path: string) {
    if path in before then path !in after || before[path] != after[path] else path in after
  }

  predicate LessEq(a: string, b: string) {
    a == "" || (b != "" && (a[0] < b[0] || (a[0] == b[0] && LessEq(a[1..], b[1..]))))
  }

  ghost predicate Sorted(s: seq<string>) { forall i, j :: 0 <= i < j < |s| ==> LessEq(s[i], s[j]) && s[i] != s[j] }

  lemma {:induction false} LessTotal(a: string, b: string)
    ensures LessEq(a, b) || LessEq(b, a)
  {
    if a != "" && b != "" && a[0] == b[0] {
      LessTotal(a[1..], b[1..]);
    }
  }

  lemma {:induction false} LessTransitive(a: string, b: string, c: string)
    requires LessEq(a, b) && LessEq(b, c)
    ensures LessEq(a, c)
  {
    if a != "" && b != "" && c != "" && a[0] == b[0] == c[0] {
      LessTransitive(a[1..], b[1..], c[1..]);
    }
  }

  /** Where x goes in a sorted sequence it does not occur in. */
  method Insert(s: seq<string>, x: string) returns (r: seq<string>)
    requires Sorted(s) && x !in s
    ensures Sorted(r) && forall p :: p in r <==> p in s || p == x
  {
    var i := 0;
    while i < |s| && LessEq(s[i], x)
      invariant 0 <= i <= |s| && forall k :: 0 <= k < i ==> LessEq(s[k], x)
    {
      i := i + 1;
    }
    forall k | i <= k < |s| ensures LessEq(x, s[k]) {
      LessTotal(x, s[i]);
      if k > i {
        LessTransitive(x, s[i], s[k]);
      }
    }
    SortedAround(s, x, i);
    MembersAround(s, x, i);
    r := s[..i] + [x] + s[i..];
  }

  lemma SortedAround(s: seq<string>, x: string, i: nat)
    requires Sorted(s) && i <= |s|
    requires forall k :: 0 <= k < |s| ==> s[k] != x && (if k < i then LessEq(s[k], x) else LessEq(x, s[k]))
    ensures Sorted(s[..i] + [x] + s[i..])
  {
    var r := s[..i] + [x] + s[i..];
    forall j, k | 0 <= j < k < |r| ensures LessEq(r[j], r[k]) && r[j] != r[k] {
      assert r[j] == if j < i then s[j] else if j == i then x else s[j - 1];
      assert r[k] == if k < i then s[k] else if k == i then x else s[k - 1];
    }
  }

  lemma MembersAround(s: seq<string>, x: string, i: nat)
    requires i <= |s|
    ensures forall p :: p in s[..i] + [x] + s[i..] <==> p in s || p == x
  {
    assert s == s[..i] + s[i..];
  }

  /** The sorted paths whose leaf differs, each once. */
  method ChangedPaths(before: Config, after: Config) returns (changed: seq<string>)
    ensures Sorted(changed) && forall p :: p in changed <==> Differs(before, after, p)
  {
    changed := [];
    var left := before.Keys;
    while left != {}
      invariant left <= before.Keys && Sorted(changed)
      invariant forall p :: p in changed <==> p in before && p !in left && Differs(before, after, p)
      decreases |left|
    {
      var path :| path in left;
      if path !in after || before[path] != after[path] {
        changed := Insert(changed, path);
      }
      left := left - {path};
    }
    left := after.Keys;
    while left != {}
      invariant left <= after.Keys && Sorted(changed)
      invariant forall p :: p in changed <==> Differs(before, after, p) && (p in before || p !in left)
      decreases |left|
    {
      var path :| path in left;
      if path !in before {
        changed := Insert(changed, path);
      }
      left := left - {path};
    }
  }

  // ---------------------------------------------------------------------------
  // Classification
  // ---------------------------------------------------------------------------

  predicate Accepted(path: string) { path == APP || APP + "." <= path }

  /** A running process can follow a change at path. */
  predicate Reloadable(path: string) { path == LOG_LEVEL || Accepted(path) }

  function Select(paths: seq<string>, keep: string -> bool): seq<string> {
    if paths == [] then []
    else Select(paths[..|paths| - 1], keep) + if keep(paths[|paths| - 1]) then [paths[|paths| - 1]] else []
  }

  /** Each path in exactly one of the three, in its order. */
  method ClassifyReload(changed: seq<string>)
    returns (applied: seq<string>, accepted: seq<string>, restart: seq<string>)
    ensures applied == Select(changed, p => p == LOG_LEVEL)
    ensures accepted == Select(changed, p => p != LOG_LEVEL && Accepted(p))
    ensures restart == Select(changed, p => !Reloadable(p))
  {
    applied, accepted, restart := [], [], [];
    for i := 0 to |changed|
      invariant applied == Select(changed[..i], p => p == LOG_LEVEL)
      invariant accepted == Select(changed[..i], p => p != LOG_LEVEL && Accepted(p))
      invariant restart == Select(changed[..i], p => !Reloadable(p))
    {
      var path := changed[i];
      assert changed[..i + 1][..i] == changed[..i];
      if path == LOG_LEVEL {
        applied := applied + [path];
      } else if path == APP || APP + "." <= path {
        accepted := accepted + [path];
      } else {
        restart := restart + [path];
      }
    }
    assert changed[..|changed|] == changed;
  }

  lemma {:induction false} SelectMembers(paths: seq<string>, keep: string -> bool, p: string)
    ensures p in Select(paths, keep) <==> p in paths && keep(p)
  {
    if paths != [] {
      SelectMembers(paths[..|paths| - 1], keep, p);
      assert paths == paths[..|paths| - 1] + [paths[|paths| - 1]];
    }
  }

  // ---------------------------------------------------------------------------
  // One reload
  // ---------------------------------------------------------------------------

  /** The level a configuration's log.level leaf stands for, None where a boot refuses it. */
  type Reading = Option<Value> -> Option<Level>

  function LevelLeaf(c: Config): Option<Value> { if LOG_LEVEL in c then Some(c[LOG_LEVEL]) else None }

  datatype State = State(last: Config, level: Level)

  /** One firing of the watch: what the sources now load to, None where loading fails, and
      whether the log backend takes a level. */
  datatype Event = Event(next: Option<Config>, backend: bool)

  ghost predicate OnlyReloadable(before: Config, after: Config) {
    forall p :: Differs(before, after, p) ==> Reloadable(p)
  }

  /** The reload is accepted. */
  ghost predicate Takes(s: State, e: Event, read: Reading) {
    && e.next.Some? && OnlyReloadable(s.last, e.next.value)
    && (Differs(s.last, e.next.value, LOG_LEVEL) ==> read(LevelLeaf(e.next.value)).Some? && e.backend)
  }

  ghost function Step(s: State, e: Event, read: Reading): State {
    if !Takes(s, e, read) then s
    else
      var moves := Differs(s.last, e.next.value, LOG_LEVEL);
      State(e.next.value, if moves then read(LevelLeaf(e.next.value)).value else s.level)
  }

  class Reloader {
    var last: Config
    var level: Level

    ghost function View(): State
      reads this
    {
      State(last, level)
    }

    constructor (boot: Config, at: Level)
      ensures View() == State(boot, at)
    {
      last, level := boot, at;
    }

    method ApplyLogLevel(next: Config, backend: bool, read: Reading) returns (ok: bool)
      modifies this`level
      ensures ok <==> read(LevelLeaf(next)).Some? && backend
      ensures level == if ok then read(LevelLeaf(next)).value else old(level)
    {
      var denoted := read(LevelLeaf(next));
      if denoted.None? || !backend {
        return false;
      }
      level := denoted.value;
      return true;
    }

    /** A change is taken whole or not at all. */
    method ReloadOnce(e: Event, read: Reading)
      modifies this
      ensures View() == Step(old(View()), e, read)
    {
      if e.next.None? {
        return;
      }
      var next := e.next.value;
      var changed := ChangedPaths(last, next);
      if |changed| == 0 {
        NothingChanged(last, next, changed);
        last := next;
        return;
      }
      var applied, accepted, restart := ClassifyReload(changed);
      Judged(last, next, changed);
      if |restart| > 0 {
        return;
      }
      if |applied| > 0 {
        var ok := ApplyLogLevel(next, e.backend, read);
        if !ok {
          return;
        }
      }
      last := next;
    }
  }

  lemma NothingChanged(before: Config, after: Config, changed: seq<string>)
    requires changed == [] && forall p :: p in changed <==> Differs(before, after, p)
    ensures before == after && !Differs(before, after, LOG_LEVEL) && OnlyReloadable(before, after)
  {
    assert forall p :: !Differs(before, after, p);
    forall p ensures p in before <==> p in after {
      assert !Differs(before, after, p);
    }
    forall p | p in before ensures before[p] == after[p] {
      assert !Differs(before, after, p);
    }
  }

  lemma Judged(before: Config, after: Config, changed: seq<string>)
    requires forall p :: p in changed <==> Differs(before, after, p)
    ensures Select(changed, p => !Reloadable(p)) == [] <==> OnlyReloadable(before, after)
    ensures Select(changed, p => p == LOG_LEVEL) != [] <==> Differs(before, after, LOG_LEVEL)
  {
    var restart, applied := Select(changed, p => !Reloadable(p)), Select(changed, p => p == LOG_LEVEL);
    forall p ensures p in restart <==> Differs(before, after, p) && !Reloadable(p) {
      SelectMembers(changed, p => !Reloadable(p), p);
    }
    forall p ensures p in applied <==> Differs(before, after, p) && p == LOG_LEVEL {
      SelectMembers(changed, p => p == LOG_LEVEL, p);
    }
    if restart != [] {
      assert restart[0] in restart;
    }
    if applied != [] {
      assert applied[0] in applied;
    }
  }

  // ---------------------------------------------------------------------------
  // Any sequence of reloads
  // ---------------------------------------------------------------------------

  ghost function Run(s: State, es: seq<Event>, read: Reading): State {
    if es == [] then s else Step(Run(s, es[..|es| - 1], read), es[|es| - 1], read)
  }

  /** The level in force is the one the held configuration stands for. */
  ghost predicate InForce(s: State, read: Reading) { read(LevelLeaf(s.last)) == Some(s.level) }

  lemma StepKeeps(boot: Config, s: State, e: Event, read: Reading)
    requires OnlyReloadable(boot, s.last) && InForce(s, read)
    ensures OnlyReloadable(boot, Step(s, e, read).last) && InForce(Step(s, e, read), read)
  {
    if Takes(s, e, read) {
      var next := e.next.value;
      forall p | Differs(boot, next, p) ensures Reloadable(p) {
        assert Differs(boot, s.last, p) || Differs(s.last, next, p);
      }
      if !Differs(s.last, next, LOG_LEVEL) {
        assert LevelLeaf(next) == LevelLeaf(s.last);
      }
    }
  }

  /** Whatever the files turn into, in whatever order: what the process holds differs from
      what it booted with only at log.level and under app, and its log level is always the
      one that configuration stands for. */
  lemma {:induction false} ReloadSafety(boot: State, es: seq<Event>, read: Reading)
    requires InForce(boot, read)
    ensures OnlyReloadable(boot.last, Run(boot, es, read).last) && InForce(Run(boot, es, read), read)
  {
    if es != [] {
      ReloadSafety(boot, es[..|es| - 1], read);
      StepKeeps(boot.last, Run(boot, es[..|es| - 1], read), es[|es| - 1], read);
    }
  }

  /** A change at log.level and under app only is taken, whole, if the level can be read and
      set; any other changed path keeps everything as it is. */
  lemma FollowsExactly(s: State, next: Config, backend: bool, read: Reading)
    ensures var t := Step(s, Event(Some(next), backend), read);
            var level := if "log.level" in next then Some(next["log.level"]) else None;
            && ((forall p :: Differs(s.last, next, p) ==> p == "log.level" || p == "app" || "app." <= p)
                && (Differs(s.last, next, "log.level") ==> read(level).Some? && backend)
                ==> t.last == next
                    && (Differs(s.last, next, "log.level") ==> Some(t.level) == read(level))
                    && (!Differs(s.last, next, "log.level") ==> t.level == s.level))
            && ((exists p :: Differs(s.last, next, p) && p != "log.level" && p != "app" && !("app." <= p)) ==> t == s)
            && (Differs(s.last, next, "log.level") && (read(level).None? || !backend) ==> t == s)
            && Step(s, Event(None, backend), read) == s
  {
    assert APP + "." == "app.";
  }

  /** A reload is whole: afterwards the process holds what was loaded, and its level, or
      exactly what it held before; and loading the same files again then changes nothing. */
  lemma AllOrNothing(s: State, e: Event, read: Reading)
    requires InForce(s, read)
    ensures var t := Step(s, e, read);
            && (t == s || (e.next == Some(t.last) && read(LevelLeaf(e.next.value)) == Some(t.level)))
            && (Takes(s, e, read) ==> e.next == Some(t.last))
            && Step(t, e, read) == t
  {
    var t := Step(s, e, read);
    StepKeeps(s.last, s, e, read);
    if Takes(s, e, read) {
      assert forall p :: !Differs(t.last, e.next.value, p);
    }
  }
}
