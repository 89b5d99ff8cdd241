/** `TokenBucket`: the per-venue rate limiter. Coroutines switch only at the `sleep`, so every
  * interleaving of acquirers is a sequence of atomic attempts at non-decreasing clock readings. */
module TokenBucket {
  import opened Seqs

  datatype Limits = Limits(rate: real, capacity: real)

  datatype Level = Level(tokens: real, last: real)

  /** How one pass of the loop ends: it returns, it sleeps, or dividing by a zero rate raises. */
  datatype Outcome = Granted | Asleep(delay: real) | DividedByZero

  datatype Attempt = Attempt(level: Level, outcome: Outcome)

  /** Tokens earned in `elapsed` seconds. */
  function Earned(rate: real, elapsed: real): real { elapsed * rate }

  lemma EarnedIs(rate: real, elapsed: real)
    ensures Earned(rate, elapsed) == elapsed * rate
  {
  }

  function Refill(p: Limits, b: Level, now: real): Level {
    Level(Min(p.capacity, b.tokens + Earned(p.rate, now - b.last)), now)
  }

  function TryAcquire(p: Limits, b: Level, now: real, n: real): Attempt {
    var r := Refill(p, b, now);
    if r.tokens >= n then Attempt(r.(tokens := r.tokens - n), Granted)
    else if p.rate == 0.0 then Attempt(r, DividedByZero)
    else Attempt(r, Asleep((n - r.tokens) / p.rate))
  }

  // ----- runs of any number of acquirers -----

  datatype Call = Call(now: real, n: real)

  function After(p: Limits, b: Level, calls: seq<Call>): Level {
    if calls == [] then b else TryAcquire(p, After(p, b, Init(calls)), Last(calls).now, Last(calls).n).level
  }

  /** One sleep of an acquirer: the attempts others make meanwhile, and how much later than asked it wakes. */
  datatype Gap = Gap(others: seq<Call>, lag: real)

  /** How an acquirer ends up, and all attempts from its first to its last, in order. */
  datatype Finish = Finish(level: Level, granted: bool, attempts: nat, calls: seq<Call>)

  function Acquiring(p: Limits, b: Level, now: real, n: real, gaps: seq<Gap>): Finish
    decreases |gaps|
  {
    var a := TryAcquire(p, b, now, n);
    if !a.outcome.Asleep? || gaps == [] then Finish(a.level, a.outcome.Granted?, 1, [Call(now, n)])
    else
      var mid := After(p, a.level, gaps[0].others);
      var f := Acquiring(p, mid, now + a.outcome.delay + gaps[0].lag, n, gaps[1..]);
      f.(attempts := f.attempts + 1, calls := ([Call(now, n)] + gaps[0].others) + f.calls)
  }

  class Bucket {
    var ratePerSec: real
    var capacity: real
    var tokens: real
    var lastRefill: real

    function Limit(): Limits
      reads this
    {
      Limits(ratePerSec, capacity)
    }

    function Current(): Level
      reads this
    {
      Level(tokens, lastRefill)
    }

    /** `per_minute`; `burst` may be left out. */
    constructor PerMinute(requestsPerMinute: real, hasBurst: bool, burst: real, now: real)
      ensures Limit() == Limits(requestsPerMinute / 60.0,
                                if hasBurst then burst else Max(1.0, requestsPerMinute / 60.0 * 2.0))
      ensures Current() == Level(capacity, now)
    {
      ratePerSec := requestsPerMinute / 60.0;
      capacity := if hasBurst then burst else Max(1.0, requestsPerMinute / 60.0 * 2.0);
      tokens := if hasBurst then burst else Max(1.0, requestsPerMinute / 60.0 * 2.0);
      lastRefill := now;
    }

    /** The loop body up to the sleep. */
    method Try(now: real, n: real) returns (outcome: Outcome)
      modifies this`tokens, this`lastRefill
      ensures Attempt(Current(), outcome) == old(TryAcquire(Limit(), Current(), now, n))
    {
      var elapsed := now - lastRefill;
      tokens := Min(capacity, tokens + elapsed * ratePerSec);
      lastRefill := now;
      if tokens >= n {
        tokens := tokens - n;
        return Granted;
      }
      if ratePerSec == 0.0 {
        return DividedByZero;
      }
      var need := n - tokens;
      outcome := Asleep(need / ratePerSec);
    }

    /** `acquire`, watched for `|gaps|` sleeps in which others may come and go. */
    method Acquire(n: real, start: real, gaps: seq<Gap>) returns (granted: bool, attempts: nat)
      modifies this`tokens, this`lastRefill
      ensures var f := old(Acquiring(Limit(), Current(), start, n, gaps));
              Current() == f.level && granted == f.granted && attempts == f.attempts
    {
      var now := start;
      var k: nat := 0;
      while true
        invariant k <= |gaps| && Limit() == old(Limit())
        invariant SameEnd(Acquiring(Limit(), Current(), now, n, gaps[k..]), k,
                          old(Acquiring(Limit(), Current(), start, n, gaps)))
        decreases |gaps| - k
      {
        var outcome := Try(now, n);
        if !outcome.Asleep? || k == |gaps| {
          return outcome.Granted?, k + 1;
        }
        Others(gaps[k].others);
        now := now + outcome.delay + gaps[k].lag;
        assert gaps[k..][1..] == gaps[k + 1..];
        k := k + 1;
      }
    }

    /** What other acquirers attempt during a sleep. */
    method Others(calls: seq<Call>)
      modifies this`tokens, this`lastRefill
      ensures Limit() == old(Limit()) && Current() == old(After(Limit(), Current(), calls))
    {
      for i := 0 to |calls|
        invariant Limit() == old(Limit()) && Current() == After(Limit(), old(Current()), calls[..i])
      {
        assert Init(calls[..i + 1]) == calls[..i];
        var outcome := Try(calls[i].now, calls[i].n);
      }
      TakeAll(calls);
    }
  }

  /** `f` is where an acquirer with `k` attempts behind it ends up on its way to `whole`. */
  predicate SameEnd(f: Finish, k: nat, whole: Finish) {
    f.level == whole.level && f.granted == whole.granted && f.attempts + k == whole.attempts
  }

  /** Whether the last call of a run is granted. */
  predicate LastGranted(p: Limits, b: Level, calls: seq<Call>)
    requires calls != []
  {
    TryAcquire(p, After(p, b, Init(calls)), Last(calls).now, Last(calls).n).outcome.Granted?
  }

  /** What is granted at times in `[s, t]`. */
  function GrantedIn(p: Limits, b: Level, calls: seq<Call>, s: real, t: real): real {
    if calls == [] then 0.0
    else GrantedIn(p, b, Init(calls), s, t)
         + if LastGranted(p, b, calls) && s <= Last(calls).now <= t then Last(calls).n else 0.0
  }

  /** The clock is monotone and nobody asks for a negative amount. */
  ghost predicate Proper(b: Level, calls: seq<Call>) {
    && (forall i :: 0 <= i < |calls| ==> calls[i].n >= 0.0 && b.last <= calls[i].now)
    && (forall i, j :: 0 <= i < j < |calls| ==> calls[i].now <= calls[j].now)
  }

  ghost predicate Valid(p: Limits, b: Level) {
    p.rate >= 0.0 && 0.0 <= b.tokens <= p.capacity
  }

  lemma EarnsOnly(rate: real, elapsed: real)
    requires rate >= 0.0 && elapsed >= 0.0
    ensures Earned(rate, elapsed) >= 0.0
  {
  }

  lemma StepKeeps(p: Limits, b: Level, now: real, n: real)
    requires Valid(p, b) && b.last <= now && n >= 0.0
    ensures Valid(p, TryAcquire(p, b, now, n).level) && TryAcquire(p, b, now, n).level.last == now
  {
    EarnsOnly(p.rate, now - b.last);
  }

  /** In every run the level stays between zero and the capacity. */
  lemma {:induction false} LevelStaysInRange(p: Limits, b: Level, calls: seq<Call>)
    requires Valid(p, b) && Proper(b, calls)
    ensures Valid(p, After(p, b, calls))
    ensures After(p, b, calls).last == if calls == [] then b.last else Last(calls).now
  {
    if calls != [] {
      LevelStaysInRange(p, b, Init(calls));
      StepKeeps(p, After(p, b, Init(calls)), Last(calls).now, Last(calls).n);
    }
  }

  /** Tokens plus what was granted since `s` never exceed one full bucket plus what was earned since. */
  ghost predicate Bounded(p: Limits, b: Level, given: real, s: real, t: real) {
    if b.last < s then given == 0.0
    else if b.last <= t then given + b.tokens <= p.capacity + Earned(p.rate, b.last - s)
    else given <= p.capacity + Earned(p.rate, t - s)
  }

  lemma Spread(rate: real, x: real, y: real)
    ensures Earned(rate, x + y) == Earned(rate, x) + Earned(rate, y)
  {
  }

  lemma EarnedLater(rate: real, x: real, y: real)
    requires rate >= 0.0 && x <= y
    ensures Earned(rate, x) <= Earned(rate, y)
  {
    EarnsOnly(rate, y - x);
    Spread(rate, x, y - x);
    assert x + (y - x) == y;
  }

  lemma StepBounded(p: Limits, b: Level, now: real, n: real, given: real, s: real, t: real)
    requires Valid(p, b) && b.last <= now && n >= 0.0 && s <= t && Bounded(p, b, given, s, t)
    ensures var a := TryAcquire(p, b, now, n);
      Bounded(p, a.level, given + (if a.outcome.Granted? && s <= now <= t then n else 0.0), s, t)
  {
    StepKeeps(p, b, now, n);
    EarnsOnly(p.rate, t - s);
    if now >= s { EarnsOnly(p.rate, now - s); }
    if b.last >= s {
      Spread(p.rate, b.last - s, now - b.last);
      assert (b.last - s) + (now - b.last) == now - s;
    }
    if b.last <= t { EarnedLater(p.rate, b.last - s, t - s); }
  }

  lemma {:induction false} RunBounded(p: Limits, b: Level, calls: seq<Call>, s: real, t: real)
    requires Valid(p, b) && Proper(b, calls) && s <= t
    ensures Bounded(p, After(p, b, calls), GrantedIn(p, b, calls, s, t), s, t)
  {
    if calls == [] {
      EarnsOnly(p.rate, t - s);
      if b.last >= s { EarnsOnly(p.rate, b.last - s); }
    } else {
      RunBounded(p, b, Init(calls), s, t);
      LevelStaysInRange(p, b, Init(calls));
      StepBounded(p, After(p, b, Init(calls)), Last(calls).now, Last(calls).n,
                  GrantedIn(p, b, Init(calls), s, t), s, t);
    }
  }

  lemma BoundedMeans(p: Limits, b: Level, given: real, s: real, t: real)
    requires Valid(p, b) && s <= t && Bounded(p, b, given, s, t)
    ensures given <= p.capacity + Earned(p.rate, t - s)
  {
    EarnsOnly(p.rate, t - s);
    if b.last < s {
      assert given == 0.0;
    } else if b.last <= t {
      EarnedLater(p.rate, b.last - s, t - s);
    }
  }

  lemma {:induction false} WindowEarns(p: Limits, b: Level, calls: seq<Call>, s: real, t: real)
    requires Valid(p, b) && Proper(b, calls) && s <= t
    ensures GrantedIn(p, b, calls, s, t) <= p.capacity + Earned(p.rate, t - s)
  {
    RunBounded(p, b, calls, s, t);
    LevelStaysInRange(p, b, calls);
    BoundedMeans(p, After(p, b, calls), GrantedIn(p, b, calls, s, t), s, t);
  }

  /** The limiter's promise: in every run and every window, however many acquirers interleave, no more
    * is granted than one full bucket plus the rate times the window's length. */
  lemma {:induction false} WindowBound(p: Limits, b: Level, calls: seq<Call>, s: real, w: real)
    requires Valid(p, b) && Proper(b, calls) && w >= 0.0
    ensures GrantedIn(p, b, calls, s, s + w) <= p.capacity + w * p.rate
  {
    WindowEarns(p, b, calls, s, s + w);
    assert s + w - s == w;
    EarnedIs(p.rate, w);
  }

  /** `n` times `d`. */
  function Steps(n: nat, d: real): real { if n == 0 then 0.0 else Steps(n - 1, d) + d }

  lemma {:induction false} StepsProduct(n: nat, d: real)
    ensures Steps(n, d) == n as real * d
  {
    if n > 0 {
      StepsProduct(n - 1, d);
      assert n as real * d == (n - 1) as real * d + d;
    }
  }

  /** A full bucket drained at `s` and then, every `d` seconds, of all it has earned. */
  function Drain(p: Limits, s: real, d: real, n: nat): seq<Call> {
    if n == 0 then [Call(s, p.capacity)] else Drain(p, s, d, n - 1) + [Call(s + Steps(n, d), Earned(p.rate, d))]
  }

  ghost predicate Drained(p: Limits, s: real, calls: seq<Call>, end: real, t: real) {
    var b := Level(p.capacity, s);
    && calls != [] && Proper(b, calls) && Last(calls).now == end
    && After(p, b, calls) == Level(0.0, end)
    && GrantedIn(p, b, calls, s, t) == p.capacity + Earned(p.rate, end - s)
  }

  lemma DrainStart(p: Limits, s: real, t: real)
    requires p.capacity >= 0.0 && s <= t
    ensures Drained(p, s, [Call(s, p.capacity)], s, t)
  {
    var b, c := Level(p.capacity, s), Call(s, p.capacity);
    assert Init([c]) == [];
    assert Earned(p.rate, s - s) == 0.0;
    assert After(p, b, []) == b;
  }

  lemma DrainMore(p: Limits, s: real, calls: seq<Call>, end: real, next: real, d: real, t: real)
    requires p.rate >= 0.0 && d >= 0.0 && Earned(p.rate, d) <= p.capacity && s <= end && next == end + d && next <= t
    requires Drained(p, s, calls, end, t)
    ensures Drained(p, s, calls + [Call(next, Earned(p.rate, d))], next, t)
  {
    var b, c := Level(p.capacity, s), Call(next, Earned(p.rate, d));
    var more := calls + [c];
    assert Init(more) == calls && Last(more) == c;
    EarnsOnly(p.rate, d);
    assert next - end == d;
    assert TryAcquire(p, Level(0.0, end), c.now, c.n) == Attempt(Level(0.0, next), Granted);
    Spread(p.rate, end - s, d);
    assert (end - s) + d == next - s;
  }

  lemma {:induction false} StepsNonNegative(n: nat, d: real)
    requires d >= 0.0
    ensures Steps(n, d) >= 0.0
  {
    if n > 0 { StepsNonNegative(n - 1, d); }
  }

  lemma {:induction false} DrainGrants(p: Limits, s: real, d: real, n: nat, end: real, t: real)
    requires p.rate >= 0.0 && p.capacity >= 0.0 && d >= 0.0 && Earned(p.rate, d) <= p.capacity
    requires end == s + Steps(n, d) && end <= t
    ensures Drained(p, s, Drain(p, s, d, n), end, t)
  {
    if n == 0 {
      DrainStart(p, s, t);
    } else {
      var m, was := DrainNext(p, s, d, n, end);
      DrainGrants(p, s, d, m, was, t);
      DrainMore(p, s, Drain(p, s, d, m), was, end, d, t);
    }
  }

  lemma DrainNext(p: Limits, s: real, d: real, n: nat, end: real) returns (m: nat, was: real)
    requires n > 0 && d >= 0.0 && end == s + Steps(n, d)
    ensures m < n && was == s + Steps(m, d) && s <= was <= end && end == was + d
    ensures Drain(p, s, d, n) == Drain(p, s, d, m) + [Call(end, Earned(p.rate, d))]
  {
    m := n - 1;
    was := s + Steps(m, d);
    StepsNonNegative(m, d);
  }

  /** A window cut into steps too short to fill the bucket. */
  lemma ShortSteps(p: Limits, w: real) returns (n: nat, d: real)
    requires p.rate >= 0.0 && p.capacity > 0.0 && w >= 0.0
    ensures d >= 0.0 && Steps(n, d) == w && Earned(p.rate, d) <= p.capacity
  {
    EarnsOnly(p.rate, w);
    var q := Earned(p.rate, w) / p.capacity;
    QuotientNonNegative(Earned(p.rate, w), p.capacity);
    n := q.Floor + 1;
    d := w / n as real;
    StepsProduct(n, d);
    DivisionShrinks(p.rate, w, p.capacity, n as real);
  }

  lemma QuotientNonNegative(x: real, y: real)
    requires x >= 0.0 && y > 0.0
    ensures x / y >= 0.0
  {
  }

  lemma DivisionShrinks(rate: real, w: real, capacity: real, n: real)
    requires rate >= 0.0 && w >= 0.0 && capacity > 0.0 && n >= 1.0 && Earned(rate, w) / capacity <= n
    ensures w / n >= 0.0 && Earned(rate, w / n) <= capacity
  {
    var x := Earned(rate, w);
    assert x == (x / capacity) * capacity;
    assert x <= n * capacity;
    assert Earned(rate, w / n) == x / n;
    assert x / n <= capacity;
  }

  /** An empty bucket that can hold nothing grants nothing. */
  lemma {:induction false} NothingToGrant(p: Limits, b: Level, calls: seq<Call>, s: real, t: real)
    requires Valid(p, b) && Proper(b, calls) && p.capacity == 0.0
    ensures GrantedIn(p, b, calls, s, t) == 0.0
  {
    if calls != [] {
      NothingToGrant(p, b, Init(calls), s, t);
      assert LastGranted(p, b, calls) ==> Last(calls).n <= 0.0;
    }
  }

  ghost predicate ReachesBound(p: Limits, s: real, w: real, calls: seq<Call>) {
    && Proper(Level(p.capacity, s), calls)
    && GrantedIn(p, Level(p.capacity, s), calls, s, s + w) == p.capacity + Earned(p.rate, w)
  }

  /** ... and the bound is tight: some run reaches it in a window of any length, unless the bucket can hold
    * nothing while the window earns something. */
  lemma WindowBoundTightIff(p: Limits, s: real, w: real)
    requires p.rate >= 0.0 && p.capacity >= 0.0 && w >= 0.0
    ensures (exists calls :: ReachesBound(p, s, w, calls)) <==> p.capacity > 0.0 || Earned(p.rate, w) == 0.0
  {
    if p.capacity > 0.0 {
      var n, d := ShortSteps(p, w);
      DrainGrants(p, s, d, n, s + w, s + w);
      assert s + w - s == w;
      assert ReachesBound(p, s, w, Drain(p, s, d, n));
    } else {
      if Earned(p.rate, w) == 0.0 { assert ReachesBound(p, s, w, []); }
      forall calls | ReachesBound(p, s, w, calls) ensures Earned(p.rate, w) == 0.0 {
        NothingToGrant(p, Level(p.capacity, s), calls, s, s + w);
      }
    }
  }

  // ----- accounting -----

  /** What refills lose to the cap over a run. */
  function Overflow(p: Limits, b: Level, calls: seq<Call>): real {
    if calls == [] then 0.0
    else
      var l := After(p, b, Init(calls));
      Overflow(p, b, Init(calls)) + Max(0.0, l.tokens + Earned(p.rate, Last(calls).now - l.last) - p.capacity)
  }

  function GrantedTotal(p: Limits, b: Level, calls: seq<Call>): real {
    if calls == [] then 0.0
    else GrantedTotal(p, b, Init(calls)) + if LastGranted(p, b, calls) then Last(calls).n else 0.0
  }

  lemma StepAccounts(p: Limits, l: Level, now: real, n: real)
    ensures var a := TryAcquire(p, l, now, n);
      a.level.tokens + (if a.outcome.Granted? then n else 0.0)
        + Max(0.0, l.tokens + Earned(p.rate, now - l.last) - p.capacity) == l.tokens + Earned(p.rate, now - l.last)
      && a.level.last == now
  {
  }

  lemma EarnedSince(rate: real, a: real, b: real, c: real)
    ensures Earned(rate, b - a) + Earned(rate, c - b) == Earned(rate, c - a)
  {
    Spread(rate, b - a, c - b);
    assert (b - a) + (c - b) == c - a;
  }

  /** Two accounts in sequence add up to one. */
  lemma AddAccounts(rate: real, t0: real, t1: real, t2: real, start: real, mid: real, end: real,
                    given: real, lost: real, given': real, lost': real)
    requires mid + given + lost == start + Earned(rate, t1 - t0)
    requires end + given' + lost' == mid + Earned(rate, t2 - t1)
    ensures end + (given + given') + (lost + lost') == start + Earned(rate, t2 - t0)
  {
    EarnedSince(rate, t0, t1, t2);
  }

  lemma {:induction false} RunAccounts(p: Limits, b: Level, calls: seq<Call>)
    ensures var e := After(p, b, calls);
      e.tokens + GrantedTotal(p, b, calls) + Overflow(p, b, calls) == b.tokens + Earned(p.rate, e.last - b.last)
  {
    if calls != [] {
      RunAccounts(p, b, Init(calls));
      var l, c := After(p, b, Init(calls)), Last(calls);
      var a := TryAcquire(p, l, c.now, c.n);
      StepAccounts(p, l, c.now, c.n);
      AddAccounts(p.rate, b.last, l.last, c.now, b.tokens, l.tokens, a.level.tokens,
                  GrantedTotal(p, b, Init(calls)), Overflow(p, b, Init(calls)),
                  if a.outcome.Granted? then c.n else 0.0,
                  Max(0.0, l.tokens + Earned(p.rate, c.now - l.last) - p.capacity));
    }
  }

  /** Conservation, for any rate, clock and amounts: tokens at the end, granted, and lost to the cap add
    * up to tokens at the start and earned. */
  lemma {:induction false} TokensAddUp(p: Limits, b: Level, calls: seq<Call>, elapsed: real)
    requires elapsed == After(p, b, calls).last - b.last
    ensures After(p, b, calls).tokens + GrantedTotal(p, b, calls) + Overflow(p, b, calls)
         == b.tokens + elapsed * p.rate
  {
    RunAccounts(p, b, calls);
    EarnedIs(p.rate, elapsed);
  }

  // ----- an acquirer among others -----

  lemma {:induction false} AfterConcat(p: Limits, b: Level, a: seq<Call>, c: seq<Call>)
    ensures After(p, b, a + c) == After(p, After(p, b, a), c)
  {
    if c == [] {
      assert a + c == a;
    } else {
      AfterConcat(p, b, a, Init(c));
      assert Init(a + c) == a + Init(c);
    }
  }

  lemma {:induction false} AfterOne(p: Limits, b: Level, c: Call)
    ensures After(p, b, [c]) == TryAcquire(p, b, c.now, c.n).level
  {
    assert Init([c]) == [];
  }

  lemma {:induction false} LastOfJoined(p: Limits, b: Level, before: seq<Call>, calls: seq<Call>)
    requires calls != []
    ensures Last(before + calls) == Last(calls)
    ensures LastGranted(p, b, before + calls) <==> LastGranted(p, After(p, b, before), calls)
  {
    AfterConcat(p, b, before, Init(calls));
    assert Init(before + calls) == before + Init(calls);
  }

  /** An acquirer's attempts, with those of the others during its sleeps, are a run of attempts whose last is
    * its own and decides: so what holds of all runs holds with acquirers asleep and awake. */
  lemma {:induction false} AcquiringIsRun(p: Limits, b: Level, now: real, n: real, gaps: seq<Gap>)
    ensures var f := Acquiring(p, b, now, n, gaps);
      && f.calls != [] && Last(f.calls).n == n && f.level == After(p, b, f.calls)
      && (f.granted <==> LastGranted(p, b, f.calls))
    decreases |gaps|
  {
    var a, c := TryAcquire(p, b, now, n), Call(now, n);
    AfterOne(p, b, c);
    if a.outcome.Asleep? && gaps != [] {
      var mid, later := After(p, a.level, gaps[0].others), now + a.outcome.delay + gaps[0].lag;
      var f, before := Acquiring(p, mid, later, n, gaps[1..]), [c] + gaps[0].others;
      AcquiringIsRun(p, mid, later, n, gaps[1..]);
      AfterConcat(p, b, [c], gaps[0].others);
      AfterConcat(p, b, before, f.calls);
      LastOfJoined(p, b, before, f.calls);
    } else {
      assert Init([c]) == [];
    }
  }

  // ----- who gets served -----

  /** Within the capacity an acquirer left alone during its first sleep is served after it at the latest. */
  lemma {:induction false} LoneAcquireSleepsOnce(p: Limits, b: Level, now: real, n: real, gaps: seq<Gap>)
    requires p.rate > 0.0 && n <= p.capacity && gaps != [] && gaps[0].others == [] && gaps[0].lag >= 0.0
    ensures var f := Acquiring(p, b, now, n, gaps); f.granted && f.attempts <= 2
  {
    var a := TryAcquire(p, b, now, n);
    if a.outcome.Asleep? {
      var need := n - a.level.tokens;
      var later := now + a.outcome.delay + gaps[0].lag;
      FullSleepEarnsEnough(need, p.rate, gaps[0].lag);
      assert Earned(p.rate, later - now) >= need;
      assert TryAcquire(p, a.level, later, n).outcome.Granted?;
    }
  }

  lemma FullSleepEarnsEnough(need: real, rate: real, lag: real)
    requires rate > 0.0 && lag >= 0.0
    ensures Earned(rate, need / rate + lag) >= need
  {
    EarnsOnly(rate, lag);
    assert Earned(rate, need / rate) == need;
    Spread(rate, need / rate, lag);
  }

  /** Others take all tokens the moment the acquirer wakes. */
  function Draining(p: Limits, b: Level, now: real, n: real): Gap
    requires p.rate > 0.0
  {
    var r := Refill(p, b, now);
    Gap([Call(now + (n - r.tokens) / p.rate, Min(p.capacity, n))], 0.0)
  }

  lemma DrainedAtWake(p: Limits, b: Level, now: real, n: real)
    requires p.rate > 0.0 && Valid(p, b) && b.last <= now && n > 0.0 && !TryAcquire(p, b, now, n).outcome.Granted?
    ensures var a, g := TryAcquire(p, b, now, n), Draining(p, b, now, n);
      && a.outcome.Asleep? && a.outcome.delay >= 0.0
      && g.others[0].now == now + a.outcome.delay && g.others[0].n >= 0.0
      && TryAcquire(p, a.level, g.others[0].now, g.others[0].n).level == Level(0.0, now + a.outcome.delay)
  {
    StepKeeps(p, b, now, n);
    var a := TryAcquire(p, b, now, n);
    var need := n - a.level.tokens;
    DelayCovers(need, p.rate);
    assert now + a.outcome.delay - now == a.outcome.delay;
    assert Earned(p.rate, a.outcome.delay) == need;
  }

  lemma DelayCovers(need: real, rate: real)
    requires need >= 0.0 && rate > 0.0
    ensures need / rate >= 0.0 && Earned(rate, need / rate) == need
  {
  }

  lemma EmptyRefuses(p: Limits, now: real, n: real)
    requires p.capacity >= 0.0 && n > 0.0
    ensures !TryAcquire(p, Level(0.0, now), now, n).outcome.Granted?
  {
    assert Earned(p.rate, now - now) == 0.0;
  }

  /** The acquirer is not served in `|gaps|` sleeps, in a run on a monotone clock. */
  ghost predicate Starved(p: Limits, b: Level, now: real, n: real, gaps: seq<Gap>) {
    var f := Acquiring(p, b, now, n, gaps);
    !f.granted && f.attempts == |gaps| + 1 && Proper(b, f.calls) && f.calls[0] == Call(now, n)
  }

  lemma StarvedMore(p: Limits, b: Level, now: real, n: real, rest: seq<Gap>)
    requires p.rate > 0.0 && Valid(p, b) && b.last <= now && n > 0.0 && !TryAcquire(p, b, now, n).outcome.Granted?
    requires var wake := now + TryAcquire(p, b, now, n).outcome.delay; Starved(p, Level(0.0, wake), wake, n, rest)
    ensures Starved(p, b, now, n, [Draining(p, b, now, n)] + rest)
  {
    var a, g := TryAcquire(p, b, now, n), Draining(p, b, now, n);
    var gaps := [g] + rest;
    DrainedAtWake(p, b, now, n);
    AfterOne(p, a.level, g.others[0]);
    assert gaps[0] == g && gaps[1..] == rest;
    assert now + a.outcome.delay + g.lag == now + a.outcome.delay;
  }

  lemma {:induction false} StarvedFor(p: Limits, b: Level, now: real, n: real, k: nat) returns (gaps: seq<Gap>)
    requires p.rate > 0.0 && Valid(p, b) && b.last <= now && n > 0.0 && !TryAcquire(p, b, now, n).outcome.Granted?
    ensures |gaps| == k && Starved(p, b, now, n, gaps)
    decreases k
  {
    if k == 0 {
      gaps := [];
    } else {
      DrainedAtWake(p, b, now, n);
      var wake := now + TryAcquire(p, b, now, n).outcome.delay;
      EmptyRefuses(p, wake, n);
      var rest := StarvedFor(p, Level(0.0, wake), wake, n, k - 1);
      StarvedMore(p, b, now, n, rest);
      gaps := [Draining(p, b, now, n)] + rest;
    }
  }

  lemma NothingAskedIsGranted(p: Limits, b: Level, now: real, n: real)
    requires p.rate >= 0.0 && Valid(p, b) && b.last <= now && n <= 0.0
    ensures TryAcquire(p, b, now, n).outcome.Granted?
  {
    EarnsOnly(p.rate, now - b.last);
  }

  /** Some behaviour of the others starves the acquirer through `k` sleeps. */
  ghost predicate Starvable(p: Limits, b: Level, now: real, n: real, k: nat) {
    exists gaps :: |gaps| == k && Starved(p, b, now, n, gaps)
  }

  /** There is no fairness: others can keep an acquirer from being served through any number of sleeps, unless
    * it is served at once. */
  lemma StarvesIff(p: Limits, b: Level, now: real, n: real)
    requires p.rate > 0.0 && Valid(p, b) && b.last <= now
    ensures (forall k: nat :: Starvable(p, b, now, n, k))
       <==> Min(p.capacity, b.tokens + Earned(p.rate, now - b.last)) < n
  {
    if n <= 0.0 { NothingAskedIsGranted(p, b, now, n); }
    if TryAcquire(p, b, now, n).outcome.Granted? {
      assert !Starvable(p, b, now, n, 0);
    } else {
      forall k: nat ensures Starvable(p, b, now, n, k) {
        var gaps := StarvedFor(p, b, now, n, k);
      }
    }
  }

  /** Beyond the capacity no acquirer is ever served, in any state. */
  lemma OversizedNeverGranted(p: Limits, b: Level, now: real, n: real)
    requires n > p.capacity
    ensures !TryAcquire(p, b, now, n).outcome.Granted?
  {
  }

  /** Such an acquirer keeps sleeping, whatever the others do. */
  lemma {:induction false} OversizedSleepsForever(p: Limits, b: Level, now: real, n: real, gaps: seq<Gap>)
    requires n > p.capacity && p.rate != 0.0
    ensures var f := Acquiring(p, b, now, n, gaps); !f.granted && f.attempts == |gaps| + 1
    decreases |gaps|
  {
    if gaps != [] {
      var a := TryAcquire(p, b, now, n);
      var mid := After(p, a.level, gaps[0].others);
      OversizedSleepsForever(p, mid, now + a.outcome.delay + gaps[0].lag, n, gaps[1..]);
    }
  }
}
