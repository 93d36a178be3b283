/** The wait between attempts: 64-bit doubling, capped, then jittered. */
module Backoff {
  import opened Common
  import opened Int64

  const SECOND: int := 1_000_000_000

  function Power(initial: int, n: nat): int { if n == 0 then initial else 2 * Power(initial, n - 1) }

  function Min(x: int, y: int): int { if x <= y then x else y }

  /** What the wait should be based on: the initial backoff doubled n times, capped. */
  function Base(initial: int, max: int, n: nat): int { Min(Power(initial, n), max) }

  /** What the doubling loop leaves after n rounds. */
  function Doubled(initial: int, max: int, n: nat): int {
    if n == 0 then initial
    else if Doubled(initial, max, n - 1) >= max then Doubled(initial, max, n - 1)
    else Wrap(2 * Doubled(initial, max, n - 1))
  }

  predicate Config(initial: int, max: int) { 0 < initial <= max <= MAX }

  /** No doubling that happens below the cap leaves the range. */
  ghost predicate NoOverflow(initial: int, max: int, n: nat) {
    forall k: nat :: k < n && Power(initial, k) < max ==> Power(initial, k) <= MAX / 2
  }

  lemma {:induction false} PowerGrows(initial: int, j: nat, k: nat)
    requires initial > 0 && j <= k
    ensures 0 < Power(initial, j) <= Power(initial, k)
  {
    if k > 0 {
      PowerGrows(initial, if j < k then j else k - 1, k - 1);
    }
  }

  /** In range the loop tracks the powers until one reaches the cap, and then keeps it. */
  lemma {:induction false} DoubledInRange(initial: int, max: int, n: nat)
    requires Config(initial, max) && NoOverflow(initial, max, n)
    ensures 0 < Doubled(initial, max, n) && Min(Doubled(initial, max, n), max) == Base(initial, max, n)
    ensures Doubled(initial, max, n) < max ==> Doubled(initial, max, n) == Power(initial, n)
  {
    if n > 0 {
      DoubledInRange(initial, max, n - 1);
      PowerGrows(initial, n - 1, n);
      assert Power(initial, n - 1) < max ==> Power(initial, n - 1) <= MAX / 2;
    }
  }

  ghost predicate RightUpTo(initial: int, max: int, n: nat) {
    forall m: nat :: m <= n ==> Min(Doubled(initial, max, m), max) == Base(initial, max, m)
  }

  /** The loop is right for the first n doublings exactly when none of them overflows. */
  lemma {:induction false} RightExactly(initial: int, max: int, n: nat)
    requires Config(initial, max)
    ensures RightUpTo(initial, max, n) <==> NoOverflow(initial, max, n)
  {
    if n > 0 {
      RightExactly(initial, max, n - 1);
      if NoOverflow(initial, max, n) {
        assert NoOverflow(initial, max, n - 1);
        DoubledInRange(initial, max, n);
      } else if NoOverflow(initial, max, n - 1) {
        OverflowIsWrong(initial, max, n);
      } else {
        assert !RightUpTo(initial, max, n - 1);
      }
    } else {
      assert Power(initial, 0) == initial;
    }
  }

  lemma OverflowIsWrong(initial: int, max: int, n: nat)
    requires Config(initial, max) && n > 0 && NoOverflow(initial, max, n - 1) && !NoOverflow(initial, max, n)
    ensures Min(Doubled(initial, max, n), max) != Base(initial, max, n)
  {
    DoubledInRange(initial, max, n - 1);
    PowerGrows(initial, n - 1, n);
    assert MAX / 2 < Power(initial, n - 1) < max;
  }

  /** A cap of at most half the range is always enough. */
  lemma HalfRangeIsSafe(initial: int, max: int, n: nat)
    requires Config(initial, max) && max <= MAX / 2
    ensures NoOverflow(initial, max, n)
  {}

  /** 2^62 + 1 doubled once is negative. */
  lemma OverflowExample()
    ensures Doubled(0x4000_0000_0000_0001, MAX, 1) < 0
  {
    assert Doubled(0x4000_0000_0000_0001, MAX, 0) == 0x4000_0000_0000_0001;
  }

  /** Half of base and a random share of that half, or None where the draw panics.  Every
      share from nothing to the whole half is Min(draw, half) for some draw. */
  function Jitter(base: int, draw: nat): Option<int> {
    var half := Truncate(base);
    if half < 0 then None else Some(half + Min(draw, half))
  }

  /** The wait before the attempt after `attempt`. */
  function Drawn(initial: int, max: int, attempt: nat, draw: nat): Option<int>
    requires attempt >= 1
  {
    Jitter(Min(Doubled(initial, max, attempt - 1), max), draw)
  }

  lemma JitterInRange(base: int, draw: nat)
    requires base >= 0
    ensures Jitter(base, draw).Some? && base / 2 <= Jitter(base, draw).value <= base
  {}

  /** Where nothing overflows the draw succeeds, in the upper half of the capped power. */
  lemma DrawnInRange(initial: int, max: int, attempt: nat, draw: nat)
    requires Config(initial, max) && attempt >= 1 && NoOverflow(initial, max, attempt - 1)
    ensures var d := Drawn(initial, max, attempt, draw);
            d.Some? && Base(initial, max, attempt - 1) / 2 <= d.value <= Base(initial, max, attempt - 1)
  {
    DoubledInRange(initial, max, attempt - 1);
    JitterInRange(Base(initial, max, attempt - 1), draw);
  }

  /** The first doubling that overflows makes the draw panic. */
  lemma OverflowPanics(initial: int, max: int, attempt: nat, draw: nat)
    requires Config(initial, max) && attempt >= 2
    requires NoOverflow(initial, max, attempt - 2) && !NoOverflow(initial, max, attempt - 1)
    ensures Drawn(initial, max, attempt, draw).None?
  {
    DoubledInRange(initial, max, attempt - 2);
    PowerGrows(initial, attempt - 2, attempt - 1);
    assert MAX / 2 < Power(initial, attempt - 2) < max;
  }

  /** The doubling loop, which stops early at the cap. */
  method Doubling(initial: int, max: int, rounds: nat) returns (base: int)
    ensures base == Doubled(initial, max, rounds)
  {
    base := initial;
    for i := 0 to rounds
      invariant base == Doubled(initial, max, i)
    {
      if base >= max {
        Settled(initial, max, i, rounds);
        return;
      }
      base := Wrap(base * 2);
    }
  }

  method Wait(initial: int, max: int, attempt: nat, draw: nat) returns (delay: Option<int>)
    requires Config(initial, max) && attempt >= 1
    ensures delay == Drawn(initial, max, attempt, draw)
  {
    var base := Doubling(initial, max, attempt - 1);
    if base > max {
      base := max;
    }
    delay := Jitter(base, draw);
  }

  /** Halving towards zero. */
  function Truncate(x: int): int { if x >= 0 then x / 2 else -(-x / 2) }

  lemma {:induction false} Settled(initial: int, max: int, k: nat, n: nat)
    requires k <= n && Doubled(initial, max, k) >= max
    ensures Doubled(initial, max, n) == Doubled(initial, max, k)
  {
    if k < n {
      Settled(initial, max, k, n - 1);
    }
  }

  // ---------------------------------------------------------------------------
  // Retry-After
  // ---------------------------------------------------------------------------

  /** The header: absent or unreadable, a number of seconds, or a moment so far away. */
  datatype Header = NoHeader | Seconds(count: int) | Until(distance: int)

  function RetryAfter(h: Header, maximum: int): (r: int)
    requires maximum <= MAX
    ensures 0 <= r <= MAX && (maximum >= 0 ==> r <= maximum)
    ensures h.Seconds? && 0 < h.count <= MAX / SECOND && maximum > 0 ==> r == Min(h.count * SECOND, maximum)
    ensures h.Seconds? && h.count > MAX / SECOND ==> r == 0
    ensures h.Until? && maximum > 0 && h.distance > 0 ==> r == Min(h.distance, maximum)
  {
    if maximum <= 0 then 0
    else
      var delay := match h
        case NoHeader => 0
        case Seconds(n) => if 0 < n <= MAX / SECOND then n * SECOND else 0
        case Until(d) => d;
      if delay <= 0 then 0 else Min(delay, maximum)
  }
}

/** The attempt loop: what is sent again, what is thrown away, what the caller gets. */
module Retry {
  import opened Common
  import opened Int64
  import opened Backoff

  datatype Policy = Policy(maxAttempts: int, initial: int, max: int, maxRetryAfter: int)

  predicate ValidPolicy(p: Policy) { p.maxAttempts >= 1 && Config(p.initial, p.max) && 0 <= p.maxRetryAfter <= MAX }

  datatype Request = Request(verb: string, marked: bool, hasBody: bool, canGetBody: bool)

  datatype Reply = Failure | Response(status: int, retryAfter: Header)

  /** Everything attempt k meets: a stopped transport at its start, the peer's reply,
      whether the budget or the caller's context is over, whether the body can be produced
      again, the budget left if there is a deadline, whether the wait is cut short, and the
      random draw. */
  datatype Weather = Weather(stopped: bool, reply: Reply, over: bool, replays: bool, left: Option<int>, cut: bool,
                             draw: nat)

  /** What the loop did: attempts sent, ended, discarded (in order), and the waits. */
  datatype Trace = Trace(sent: nat, ended: seq<nat>, discarded: seq<nat>, waits: seq<int>)

  /** The response of an attempt, an error, or a panic of the random draw. */
  datatype Result = Returns(attempt: nat) | Fails | Stopped | Panics

  // ---------------------------------------------------------------------------
  // When another attempt follows
  // ---------------------------------------------------------------------------

  /** The methods of section 9.2.2 of RFC 9110 the engine sends again unasked. */
  predicate Idempotent(r: Request) { r.verb in {"GET", "HEAD", "OPTIONS", "PUT", "DELETE"} || r.marked }

  predicate Replayable(r: Request) { !r.hasBody || r.canGetBody }

  predicate RetryableStatus(status: int) { status in {502, 503, 504, 429} }

  predicate MayRetry(p: Policy, r: Request, attempt: nat) { attempt < p.maxAttempts && Idempotent(r) && Replayable(r) }

  /** Is the reply one that another attempt may improve on? */
  predicate Retryable(w: Weather) {
    match w.reply
    case Failure => !w.over
    case Response(status, _) => RetryableStatus(status)
  }

  predicate BodyReady(r: Request, w: Weather) { !r.hasBody || w.replays }

  predicate Fits(w: Weather, delay: int) { w.left.None? || w.left.value > delay }

  /** The wait after attempt k, when its backoff is b. */
  function Delay(p: Policy, w: Weather, b: int): int
    requires ValidPolicy(p)
  {
    if w.reply.Response? && w.reply.status == 429 && RetryAfter(w.reply.retryAfter, p.maxRetryAfter) > b
    then RetryAfter(w.reply.retryAfter, p.maxRetryAfter) else b
  }

  /** Attempt k's outcome calls for another, and there is a body and time for it. */
  predicate GoesOn(p: Policy, r: Request, w: Weather, attempt: nat, delay: int) {
    Retryable(w) && MayRetry(p, r, attempt) && BodyReady(r, w) && Fits(w, delay)
  }

  // ---------------------------------------------------------------------------
  // What a trace must be
  // ---------------------------------------------------------------------------

  /** The attempts 1..n that met a response. */
  function Responded(sky: seq<Weather>, n: nat): seq<nat>
    requires n <= |sky|
  {
    if n == 0 then [] else if sky[n - 1].reply.Response? then Responded(sky, n - 1) + [n] else Responded(sky, n - 1)
  }

  function Upto(n: nat): seq<nat> { if n == 0 then [] else Upto(n - 1) + [n] }

  /** The wait after each of the attempts 1..n, each of which called for the next. */
  ghost predicate Led(p: Policy, r: Request, sky: seq<Weather>, waits: seq<int>)
    requires ValidPolicy(p)
  {
    |waits| <= |sky| && forall k :: 0 <= k < |waits| ==> Followed(p, r, sky[k], k + 1, waits[k])
  }

  ghost predicate Followed(p: Policy, r: Request, w: Weather, attempt: nat, wait: int)
    requires ValidPolicy(p)
  {
    !w.stopped && !w.cut && GoesOn(p, r, w, attempt, wait) && Due(p, w, attempt, wait)
  }

  /** wait is the delay for the backoff drawn after the attempt. */
  ghost predicate Due(p: Policy, w: Weather, attempt: nat, wait: int)
    requires ValidPolicy(p)
  {
    attempt >= 1 && var b := Drawn(p.initial, p.max, attempt, w.draw); b.Some? && wait == Delay(p, w, b.value)
  }

  /** The draw after the attempt panics. */
  ghost predicate DrawPanics(p: Policy, w: Weather, attempt: nat)
    requires ValidPolicy(p)
  {
    attempt >= 1 && Drawn(p.initial, p.max, attempt, w.draw).None?
  }

  /** There is time for the wait drawn after the attempt, if the draw gives one. */
  predicate WaitFits(p: Policy, w: Weather, attempt: nat)
    requires ValidPolicy(p)
  {
    attempt >= 1 ==> var b := Drawn(p.initial, p.max, attempt, w.draw); b.Some? ==> Fits(w, Delay(p, w, b.value))
  }

  /** The wait after attempt n is drawn, and the draw panics.  After a failure the body is
      produced before the draw, after a response only afterwards. */
  ghost predicate Crashes(p: Policy, r: Request, w: Weather, n: nat)
    requires ValidPolicy(p)
  {
    Retryable(w) && MayRetry(p, r, n) && (w.reply.Failure? ==> BodyReady(r, w)) && DrawPanics(p, w, n)
  }

  /** Attempt n does not call for another, or there is no time for the wait drawn. */
  ghost predicate GivesUp(p: Policy, r: Request, w: Weather, n: nat)
    requires ValidPolicy(p)
  {
    && !Crashes(p, r, w, n)
    && (!Retryable(w) || !MayRetry(p, r, n) || !BodyReady(r, w) || !WaitFits(p, w, n))
  }

  /** Another attempt is to follow, once its wait is over. */
  ghost predicate CallsForMore(p: Policy, r: Request, w: Weather, n: nat)
    requires ValidPolicy(p)
  {
    !Crashes(p, r, w, n) && !GivesUp(p, r, w, n)
  }

  /** How attempt n, the last one, ended the call.  Its response is returned, unended and
      undiscarded, when no further attempt is called for; it is lost only to a wait cut short
      or to a panic of the draw. */
  ghost predicate Closes(p: Policy, r: Request, sky: seq<Weather>, t: Trace, n: nat, result: Result)
    requires ValidPolicy(p)
  {
    && 1 <= n <= |sky| && t.sent == n && |t.waits| == n - 1 && !sky[n - 1].stopped
    && var w := sky[n - 1];
       match result
       case Returns(k) =>
         k == n && w.reply.Response? && GivesUp(p, r, w, n)
         && t.ended == Upto(n - 1) && t.discarded == Responded(sky, n - 1)
       case Fails =>
         ((w.reply.Failure? && GivesUp(p, r, w, n)) || (w.cut && CallsForMore(p, r, w, n)))
         && t.ended == Upto(n) && t.discarded == Responded(sky, n)
       case Panics =>
         Crashes(p, r, w, n)
         && t.ended == Upto(if w.reply.Failure? then n else n - 1) && t.discarded == Responded(sky, n - 1)
       case Stopped => false
  }

  /** All n attempts are over and the transport is stopped when the next would begin. */
  ghost predicate Halts(sky: seq<Weather>, t: Trace, n: nat) {
    && n < |sky| && sky[n].stopped && t.sent == n && |t.waits| == n
    && t.ended == Upto(n) && t.discarded == Responded(sky, n)
  }

  // ---------------------------------------------------------------------------
  // The loop
  // ---------------------------------------------------------------------------

  /** What is to be done about an outcome. */
  datatype Verdict = Deliver | Again(delay: int) | Crash

  method DelayAfter(p: Policy, w: Weather, attempt: nat) returns (delay: Option<int>)
    requires ValidPolicy(p) && attempt >= 1
    ensures if delay.None? then DrawPanics(p, w, attempt) else Due(p, w, attempt, delay.value)
  {
    var b := Wait(p.initial, p.max, attempt, w.draw);
    if b.None? {
      return None;
    }
    return Some(Delay(p, w, b.value));
  }

  /** After a failed send: the body is produced before the budget is looked at. */
  method AfterFailure(p: Policy, r: Request, w: Weather, attempt: nat) returns (v: Verdict)
    requires ValidPolicy(p) && attempt >= 1 && w.reply.Failure?
    ensures v == Deliver ==> GivesUp(p, r, w, attempt)
    ensures v.Again? ==> GoesOn(p, r, w, attempt, v.delay) && Due(p, w, attempt, v.delay)
    ensures v == Crash ==> Crashes(p, r, w, attempt)
  {
    if w.over || !MayRetry(p, r, attempt) || !BodyReady(r, w) {
      return Deliver;
    }
    var delay := DelayAfter(p, w, attempt);
    if delay.None? {
      return Crash;
    }
    if !Fits(w, delay.value) {
      return Deliver;
    }
    return Again(delay.value);
  }

  /** After a response: the budget is looked at before the body is produced, and both
      before the response is given up. */
  method AfterResponse(p: Policy, r: Request, w: Weather, attempt: nat) returns (v: Verdict)
    requires ValidPolicy(p) && attempt >= 1 && w.reply.Response?
    ensures v == Deliver ==> GivesUp(p, r, w, attempt)
    ensures v.Again? ==> GoesOn(p, r, w, attempt, v.delay) && Due(p, w, attempt, v.delay)
    ensures v == Crash ==> Crashes(p, r, w, attempt)
  {
    if !RetryableStatus(w.reply.status) || !MayRetry(p, r, attempt) {
      return Deliver;
    }
    var delay := DelayAfter(p, w, attempt);
    if delay.None? {
      return Crash;
    }
    if !Fits(w, delay.value) || !BodyReady(r, w) {
      return Deliver;
    }
    return Again(delay.value);
  }

  /** What holds whenever another attempt is about to begin. */
  ghost predicate Looping(p: Policy, r: Request, sky: seq<Weather>, t: Trace)
    requires ValidPolicy(p)
  {
    && t.sent < |sky| && |t.waits| == t.sent && Led(p, r, sky, t.waits)
    && t.ended == Upto(t.sent) && t.discarded == Responded(sky, t.sent)
  }

  /** One more attempt; a failed one ends at once. */
  function Tried(t: Trace, w: Weather): Trace {
    var n := t.sent + 1;
    t.(sent := n, ended := if w.reply.Failure? then t.ended + [n] else t.ended)
  }

  /** Its response, if there is one, is discarded, which ends the attempt. */
  function Dropped(t: Trace, w: Weather): Trace {
    if w.reply.Failure? then t else t.(ended := t.ended + [t.sent], discarded := t.discarded + [t.sent])
  }

  lemma Delivers(p: Policy, r: Request, sky: seq<Weather>, t: Trace)
    requires ValidPolicy(p) && Looping(p, r, sky, t) && !sky[t.sent].stopped && GivesUp(p, r, sky[t.sent], t.sent + 1)
    ensures var w := sky[t.sent];
            Closes(p, r, sky, Tried(t, w), t.sent + 1, if w.reply.Failure? then Fails else Returns(t.sent + 1))
  {}

  lemma CutShort(p: Policy, r: Request, sky: seq<Weather>, t: Trace)
    requires ValidPolicy(p) && Looping(p, r, sky, t) && !sky[t.sent].stopped && sky[t.sent].cut
    requires CallsForMore(p, r, sky[t.sent], t.sent + 1)
    ensures Closes(p, r, sky, Dropped(Tried(t, sky[t.sent]), sky[t.sent]), t.sent + 1, Fails)
  {}

  lemma Breaks(p: Policy, r: Request, sky: seq<Weather>, t: Trace)
    requires ValidPolicy(p) && Looping(p, r, sky, t) && !sky[t.sent].stopped && Crashes(p, r, sky[t.sent], t.sent + 1)
    ensures Closes(p, r, sky, Tried(t, sky[t.sent]), t.sent + 1, Panics)
  {}

  /** The three fates of an outcome exclude each other. */
  lemma GoingOnCallsForMore(p: Policy, r: Request, w: Weather, attempt: nat, delay: int)
    requires ValidPolicy(p) && GoesOn(p, r, w, attempt, delay) && Due(p, w, attempt, delay)
    ensures CallsForMore(p, r, w, attempt)
  {}

  lemma LoopsOn(p: Policy, r: Request, sky: seq<Weather>, t: Trace, delay: int)
    requires ValidPolicy(p) && |sky| == p.maxAttempts && Looping(p, r, sky, t)
    requires Followed(p, r, sky[t.sent], t.sent + 1, delay)
    ensures var next := Dropped(Tried(t, sky[t.sent]), sky[t.sent]);
            Looping(p, r, sky, next.(waits := t.waits + [delay]))
  {
    LedOn(p, r, sky, t.waits, delay);
  }

  lemma LedOn(p: Policy, r: Request, sky: seq<Weather>, waits: seq<int>, delay: int)
    requires ValidPolicy(p) && |waits| < |sky| && Led(p, r, sky, waits)
    requires Followed(p, r, sky[|waits|], |waits| + 1, delay)
    ensures Led(p, r, sky, waits + [delay])
  {}

  /** What becomes of an outcome. */
  method Judge(p: Policy, r: Request, w: Weather, attempt: nat) returns (v: Verdict)
    requires ValidPolicy(p) && attempt >= 1
    ensures v == Deliver ==> GivesUp(p, r, w, attempt)
    ensures v.Again? ==> GoesOn(p, r, w, attempt, v.delay) && Due(p, w, attempt, v.delay)
    ensures v == Crash ==> Crashes(p, r, w, attempt)
  {
    if w.reply.Failure? {
      v := AfterFailure(p, r, w, attempt);
    } else {
      v := AfterResponse(p, r, w, attempt);
    }
  }

  /** At most maxAttempts sends; each after the first follows a retryable outcome of an
      idempotent, replayable request and its wait; every attempt but the returned one has
      ended exactly once; the returned response was never discarded. */
  method Send(p: Policy, r: Request, sky: seq<Weather>) returns (result: Result, t: Trace)
    requires ValidPolicy(p) && |sky| == p.maxAttempts
    ensures t.sent <= p.maxAttempts && Led(p, r, sky, t.waits)
    ensures if result == Stopped then Halts(sky, t, t.sent) else Closes(p, r, sky, t, t.sent, result)
  {
    t := Trace(0, [], [], []);
    while true
      invariant Looping(p, r, sky, t)
      decreases |sky| - t.sent
    {
      var w := sky[t.sent];
      if w.stopped {
        return Stopped, t;
      }
      ghost var before := t;
      t := Tried(t, w);
      var v := Judge(p, r, w, t.sent);
      if v == Crash {
        Breaks(p, r, sky, before);
        return Panics, t;
      }
      if v == Deliver {
        Delivers(p, r, sky, before);
        return if w.reply.Failure? then Fails else Returns(t.sent), t;
      }
      GoingOnCallsForMore(p, r, w, t.sent, v.delay);
      t := Dropped(t, w);
      if w.cut {
        CutShort(p, r, sky, before);
        return Fails, t;
      }
      LoopsOn(p, r, sky, before, v.delay);
      t := t.(waits := t.waits + [v.delay]);
    }
  }

  // ---------------------------------------------------------------------------
  // What the trace means
  // ---------------------------------------------------------------------------

  function Count(s: seq<nat>, x: nat): nat
  {
    if s == [] then 0 else Count(s[..|s| - 1], x) + (if s[|s| - 1] == x then 1 else 0)
  }

  lemma {:induction false} UptoCount(n: nat, x: nat)
    ensures Count(Upto(n), x) == if 1 <= x <= n then 1 else 0
  {
    if n > 0 {
      UptoCount(n - 1, x);
      assert Upto(n)[..|Upto(n)| - 1] == Upto(n - 1);
    }
  }

  lemma {:induction false} RespondedCount(sky: seq<Weather>, n: nat, x: nat)
    requires n <= |sky|
    ensures Count(Responded(sky, n), x) == if 1 <= x <= n && sky[x - 1].reply.Response? then 1 else 0
  {
    if n > 0 {
      RespondedCount(sky, n - 1, x);
      if sky[n - 1].reply.Response? {
        assert Responded(sky, n)[..|Responded(sky, n)| - 1] == Responded(sky, n - 1);
      }
    }
  }

  /** What the caller gets is decided by the last attempt alone: its response exactly when
      there is one and no further attempt is called for. */
  lemma EndsExactly(p: Policy, r: Request, sky: seq<Weather>, t: Trace, result: Result)
    requires ValidPolicy(p) && Closes(p, r, sky, t, t.sent, result)
    ensures var w := sky[t.sent - 1];
            && (result == Returns(t.sent) <==> w.reply.Response? && GivesUp(p, r, w, t.sent))
            && (result == Panics <==> Crashes(p, r, w, t.sent))
            && (result == Fails <==>
                  (w.reply.Failure? && GivesUp(p, r, w, t.sent)) || CallsForMore(p, r, w, t.sent))
            && (result == Fails && w.reply.Response? ==> w.cut)
  {}

  /** Attempt x is still open at the end: its response is the one returned, or was in hand
      when the draw panicked. */
  predicate LeftOpen(sky: seq<Weather>, t: Trace, result: Result, x: nat) {
    result == Returns(x) || (result == Panics && x == t.sent && 1 <= x <= |sky| && sky[x - 1].reply.Response?)
  }

  /** Attempt by attempt: ended exactly once unless left open, and then neither ended nor
      discarded; nothing is ended or discarded that was not sent. */
  lemma EndedOnce(p: Policy, r: Request, sky: seq<Weather>, t: Trace, result: Result, x: nat)
    requires ValidPolicy(p)
    requires if result == Stopped then Halts(sky, t, t.sent) else Closes(p, r, sky, t, t.sent, result)
    ensures var over := 1 <= x <= t.sent && !LeftOpen(sky, t, result, x);
            && Count(t.ended, x) == (if over then 1 else 0)
            && Count(t.discarded, x) == (if over && sky[x - 1].reply.Response? then 1 else 0)
  {
    UptoCount(t.sent, x);
    RespondedCount(sky, t.sent, x);
    if result.Returns? || result.Panics? {
      UptoCount(t.sent - 1, x);
      RespondedCount(sky, t.sent - 1, x);
    }
  }

  /** A request that is not idempotent, or whose body cannot be produced again, is sent at
      most once; and the draw panics only where a doubling below the cap overflows, so never
      with a cap of at most half the range. */
  lemma SentOnce(p: Policy, r: Request, sky: seq<Weather>, t: Trace, result: Result)
    requires ValidPolicy(p) && Led(p, r, sky, t.waits)
    requires if result == Stopped then Halts(sky, t, t.sent) else Closes(p, r, sky, t, t.sent, result)
    ensures !Idempotent(r) || !Replayable(r) ==> t.sent <= 1
    ensures result.Panics? ==> t.sent >= 1 && !NoOverflow(p.initial, p.max, t.sent - 1)
    ensures p.max <= MAX / 2 ==> !result.Panics?
  {
    if t.waits != [] {
      assert Followed(p, r, sky[0], 1, t.waits[0]);
    }
    if t.sent >= 1 && p.max <= MAX / 2 {
      HalfRangeIsSafe(p.initial, p.max, t.sent - 1);
    }
    if result.Panics? && NoOverflow(p.initial, p.max, t.sent - 1) {
      DrawnInRange(p.initial, p.max, t.sent, sky[t.sent - 1].draw);
    }
  }

  /** The verbs that may be sent again, and whatever the caller marked. */
  predicate SafeAgain(r: Request) {
    || r.verb == "GET" || r.verb == "HEAD" || r.verb == "OPTIONS" || r.verb == "PUT" || r.verb == "DELETE"
    || r.marked
  }

  /** On the requests and replies themselves: a POST or PATCH that is not marked, and a body
      that cannot be produced again, are sent once; what a later send follows is a failed send
      or one of the four statuses; and the wait before it is the backoff, or the Retry-After
      of a 429 where that is longer, and shorter than the time left. */
  lemma ResendsOnly(p: Policy, r: Request, sky: seq<Weather>, waits: seq<int>, k: nat)
    requires ValidPolicy(p) && Led(p, r, sky, waits) && k < |waits|
    ensures SafeAgain(r)
    ensures r.hasBody ==> r.canGetBody
    ensures sky[k].reply.Response? ==> sky[k].reply.status == 429 || sky[k].reply.status == 502
                                       || sky[k].reply.status == 503 || sky[k].reply.status == 504
    ensures sky[k].reply.Failure? ==> !sky[k].over
    ensures k + 1 < p.maxAttempts
    ensures sky[k].left.Some? ==> waits[k] < sky[k].left.value
    ensures Drawn(p.initial, p.max, k + 1, sky[k].draw).Some?
    ensures var b := Drawn(p.initial, p.max, k + 1, sky[k].draw).value;
            && b <= waits[k]
            && (sky[k].reply.Failure? || sky[k].reply.status != 429 ==> waits[k] == b)
            && (sky[k].reply.Response? && sky[k].reply.status == 429
                ==> var a := RetryAfter(sky[k].reply.retryAfter, p.maxRetryAfter); a <= waits[k] && waits[k] in {a, b})
  {
    assert Followed(p, r, sky[k], k + 1, waits[k]);
  }

  /** And a GET, HEAD, OPTIONS, PUT or DELETE, or a marked request, without a body or with one
      that can be produced again, is sent again after each of those, as long as attempts are
      left and the wait can be drawn and fits. */
  lemma ResendsAlways(p: Policy, r: Request, w: Weather, attempt: nat)
    requires ValidPolicy(p) && 1 <= attempt < p.maxAttempts
    requires SafeAgain(r)
    requires !r.hasBody || (r.canGetBody && w.replays)
    requires (w.reply.Failure? && !w.over)
             || (w.reply.Response? && (w.reply.status == 429 || w.reply.status == 502
                                       || w.reply.status == 503 || w.reply.status == 504))
    requires Drawn(p.initial, p.max, attempt, w.draw).Some?
    requires w.left.Some? ==>
               && Drawn(p.initial, p.max, attempt, w.draw).value < w.left.value
               && (w.reply.Response? ==> RetryAfter(w.reply.retryAfter, p.maxRetryAfter) < w.left.value)
    ensures CallsForMore(p, r, w, attempt)
  {}

  /** A call that got as far as wait k met no overflow on the way: the draw would have
      panicked first. */
  lemma {:induction false} WaitsMeanNoOverflow(p: Policy, r: Request, sky: seq<Weather>, waits: seq<int>, k: nat)
    requires ValidPolicy(p) && Led(p, r, sky, waits) && k < |waits|
    ensures NoOverflow(p.initial, p.max, k)
  {
    if k > 0 {
      WaitsMeanNoOverflow(p, r, sky, waits, k - 1);
      assert Followed(p, r, sky[k], k + 1, waits[k]);
      if !NoOverflow(p.initial, p.max, k) {
        OverflowPanics(p.initial, p.max, k + 1, sky[k].draw);
      }
    }
  }

  /** Whatever the configuration, every wait that is made is in the upper half of the capped
      power, or is the peer's Retry-After where that is longer. */
  lemma WaitsInRange(p: Policy, r: Request, sky: seq<Weather>, waits: seq<int>, k: nat)
    requires ValidPolicy(p) && Led(p, r, sky, waits) && k < |waits|
    ensures Base(p.initial, p.max, k) / 2 <= waits[k]
    ensures waits[k] <= Base(p.initial, p.max, k)
            || (sky[k].reply.Response? && sky[k].reply.status == 429
                && waits[k] == RetryAfter(sky[k].reply.retryAfter, p.maxRetryAfter) <= p.maxRetryAfter)
  {
    WaitsMeanNoOverflow(p, r, sky, waits, k);
    DrawnInRange(p.initial, p.max, k + 1, sky[k].draw);
    assert Followed(p, r, sky[k], k + 1, waits[k]);
  }
}
