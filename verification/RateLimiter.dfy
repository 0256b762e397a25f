/** The sliding-window limiter: a per-key log that is compacted in place, against counting
    over everything that was ever accepted. */
module RateLimiter {
  import opened Wrappers

  datatype Config = Config(limit: int, window: Time)

  /** The instants after the cutoff, in order. */
  function Recent(times: seq<Time>, cutoff: Time): (r: seq<Time>)
    ensures |r| <= |times|
  {
    if times == [] then []
    else
      var n := |times| - 1;
      if times[n] > cutoff then Recent(times[..n], cutoff) + [times[n]] else Recent(times[..n], cutoff)
  }

  lemma RecentSnoc(times: seq<Time>, t: Time, cutoff: Time)
    ensures Recent(times + [t], cutoff) == if t > cutoff then Recent(times, cutoff) + [t] else Recent(times, cutoff)
  {
    assert (times + [t])[..|times|] == times;
  }

  /** Dropping what is old now never changes what is recent later. */
  lemma {:induction false} RecentTwice(times: seq<Time>, earlier: Time, later: Time)
    requires earlier <= later
    ensures Recent(Recent(times, earlier), later) == Recent(times, later)
  {
    if times != [] {
      var n := |times| - 1;
      RecentTwice(times[..n], earlier, later);
      RecentSnoc(Recent(times[..n], earlier), times[n], later);
    }
  }

  /** The positions of the instants after the cutoff. */
  function LaterThan(cutoff: Time, times: seq<Time>): set<int> { set i | 0 <= i < |times| && cutoff < times[i] }

  lemma {:induction false} RecentCount(times: seq<Time>, cutoff: Time)
    ensures |Recent(times, cutoff)| == |LaterThan(cutoff, times)|
  {
    if times == [] {
      assert LaterThan(cutoff, times) == {};
    } else {
      var n := |times| - 1;
      RecentCount(times[..n], cutoff);
      var before := LaterThan(cutoff, times[..n]);
      assert LaterThan(cutoff, times) == if times[n] > cutoff then before + {n} else before;
    }
  }

  // --- The limiter and its reference -----------------------------------------

  datatype Attempt = Attempt(key: string, now: Time)

  function LogOf(logs: map<string, seq<Time>>, key: string): seq<Time> {
    if key in logs then logs[key] else []
  }

  predicate Allowed(cfg: Config, log: seq<Time>, now: Time) { |Recent(log, now - cfg.window)| < cfg.limit }

  /** One attempt: the log keeps only what is recent, and the attempt if it is allowed. */
  function Attempted(cfg: Config, log: seq<Time>, now: Time): seq<Time> {
    Recent(log, now - cfg.window) + if Allowed(cfg, log, now) then [now] else []
  }

  function Logs(cfg: Config, attempts: seq<Attempt>): map<string, seq<Time>> {
    if attempts == [] then map[]
    else
      var before := Logs(cfg, attempts[..|attempts| - 1]);
      var a := attempts[|attempts| - 1];
      before[a.key := Attempted(cfg, LogOf(before, a.key), a.now)]
  }

  /** The reference: everything ever accepted for the key, never compacted. */
  function Accepted(cfg: Config, attempts: seq<Attempt>, key: string): seq<Time> {
    if attempts == [] then []
    else
      var before := Accepted(cfg, attempts[..|attempts| - 1], key);
      var a := attempts[|attempts| - 1];
      if a.key == key && Allowed(cfg, before, a.now) then before + [a.now] else before
  }

  predicate NonDecreasing(attempts: seq<Attempt>) {
    |attempts| >= 2 ==>
      var n := |attempts| - 1;
      attempts[n - 1].now <= attempts[n].now && NonDecreasing(attempts[..n])
  }

  lemma NonDecreasingBefore(attempts: seq<Attempt>)
    requires attempts != [] && NonDecreasing(attempts)
    ensures
      var before := attempts[..|attempts| - 1];
      NonDecreasing(before) && (before != [] ==> before[|before| - 1].now <= attempts[|attempts| - 1].now)
  {}

  /** One attempt on a compacted log and on the full history that agree so far. */
  lemma AttemptAgrees(cfg: Config, log: seq<Time>, history: seq<Time>, now: Time, cutoff: Time)
    requires now - cfg.window <= cutoff
    requires Recent(log, now - cfg.window) == Recent(history, now - cfg.window)
    requires Recent(log, cutoff) == Recent(history, cutoff)
    ensures Allowed(cfg, log, now) <==> Allowed(cfg, history, now)
    ensures Recent(Attempted(cfg, log, now), cutoff)
         == Recent(if Allowed(cfg, history, now) then history + [now] else history, cutoff)
  {
    hide Recent;
    RecentTwice(log, now - cfg.window, cutoff);
    RecentSnoc(Recent(log, now - cfg.window), now, cutoff);
    RecentSnoc(history, now, cutoff);
    var kept := Recent(log, now - cfg.window);
    assert kept + [] == kept;
  }

  lemma LastAttempt(cfg: Config, attempts: seq<Attempt>, key: string)
    requires attempts != []
    ensures
      var before, a := attempts[..|attempts| - 1], attempts[|attempts| - 1];
      var log, history := LogOf(Logs(cfg, before), key), Accepted(cfg, before, key);
      && LogOf(Logs(cfg, attempts), key) == (if a.key == key then Attempted(cfg, log, a.now) else log)
      && Accepted(cfg, attempts, key) == (if a.key == key && Allowed(cfg, history, a.now) then history + [a.now]
                                          else history)
  {}

  /** While the clock does not run backwards, the compacted log and the full history agree on
      everything recent, from the last attempt on. */
  lemma {:induction false} LogsAgree(cfg: Config, attempts: seq<Attempt>, key: string, cutoff: Time)
    requires NonDecreasing(attempts)
    requires attempts != [] ==> attempts[|attempts| - 1].now - cfg.window <= cutoff
    ensures Recent(LogOf(Logs(cfg, attempts), key), cutoff) == Recent(Accepted(cfg, attempts, key), cutoff)
  {
    if attempts == [] {
    } else {
      NonDecreasingBefore(attempts);
      LastAttempt(cfg, attempts, key);
      hide Recent, Allowed, Attempted, NonDecreasing, Logs, LogOf, Accepted;
      var before, a := attempts[..|attempts| - 1], attempts[|attempts| - 1];
      LogsAgree(cfg, before, key, cutoff);
      if a.key == key {
        LogsAgree(cfg, before, key, a.now - cfg.window);
        AttemptAgrees(cfg, LogOf(Logs(cfg, before), key), Accepted(cfg, before, key), a.now, cutoff);
      }
    }
  }

  lemma EarlierThan(attempts: seq<Attempt>, a: Attempt)
    requires NonDecreasing(attempts + [a])
    ensures NonDecreasing(attempts) && (attempts != [] ==> attempts[|attempts| - 1].now <= a.now)
  {
    hide NonDecreasing;
    assert (attempts + [a])[..|attempts|] == attempts;
    NonDecreasingBefore(attempts + [a]);
  }

  /** Refinement: with a clock that does not run backwards, every attempt is decided as if the
      whole history of accepted attempts had been counted. */
  lemma SameDecision(cfg: Config, attempts: seq<Attempt>, a: Attempt)
    requires NonDecreasing(attempts + [a])
    ensures Allowed(cfg, LogOf(Logs(cfg, attempts), a.key), a.now) <==>
            Allowed(cfg, Accepted(cfg, attempts, a.key), a.now)
    ensures Allowed(cfg, LogOf(Logs(cfg, attempts), a.key), a.now) <==>
            |LaterThan(a.now - cfg.window, Accepted(cfg, attempts, a.key))| < cfg.limit
  {
    RecentCount(Accepted(cfg, attempts, a.key), a.now - cfg.window);
    hide Recent, Logs, Accepted, NonDecreasing, LogOf, Attempted, LaterThan;
    EarlierThan(attempts, a);
    LogsAgree(cfg, attempts, a.key, a.now - cfg.window);
  }

  // --- The limit -------------------------------------------------------------

  /** The instants in the half-open window of the configured length that ends at `end`. */
  function Within(cfg: Config, times: seq<Time>, end: Time): seq<Time> {
    if times == [] then []
    else
      var n := |times| - 1;
      Within(cfg, times[..n], end) + if end - cfg.window < times[n] <= end then [times[n]] else []
  }

  lemma {:induction false} WithinIsRecent(cfg: Config, times: seq<Time>, end: Time, now: Time)
    requires now <= end
    ensures |Within(cfg, times, end)| <= |Recent(times, now - cfg.window)|
  {
    if times != [] { WithinIsRecent(cfg, times[..|times| - 1], end, now); }
  }

  /** No window of the configured length, wherever it ends, ever holds more accepted attempts
      for a key than the limit. */
  lemma {:induction false} LimitHolds(cfg: Config, attempts: seq<Attempt>, key: string, end: Time)
    ensures |Within(cfg, Accepted(cfg, attempts, key), end)| <= if cfg.limit > 0 then cfg.limit else 0
  {
    if attempts != [] {
      var before, a := attempts[..|attempts| - 1], attempts[|attempts| - 1];
      LimitHolds(cfg, before, key, end);
      var history := Accepted(cfg, before, key);
      if a.key == key && Allowed(cfg, history, a.now) {
        assert (history + [a.now])[..|history|] == history;
        if a.now <= end { WithinIsRecent(cfg, history, end, a.now); }
      }
    }
  }

  /** What the limiter itself lets through, one verdict after another. */
  function LetThrough(cfg: Config, attempts: seq<Attempt>, key: string): seq<Time> {
    if attempts == [] then []
    else
      var before := attempts[..|attempts| - 1];
      var a := attempts[|attempts| - 1];
      LetThrough(cfg, before, key)
        + if a.key == key && Allowed(cfg, LogOf(Logs(cfg, before), key), a.now) then [a.now] else []
  }

  lemma {:induction false} LetThroughIsAccepted(cfg: Config, attempts: seq<Attempt>, key: string)
    requires NonDecreasing(attempts)
    ensures LetThrough(cfg, attempts, key) == Accepted(cfg, attempts, key)
  {
    if attempts != [] {
      hide Recent, Logs, LogOf, Allowed, LaterThan;
      var before, a := attempts[..|attempts| - 1], attempts[|attempts| - 1];
      LetThroughIsAccepted(cfg, before, key);
      if a.key == key {
        assert attempts == before + [a];
        SameDecision(cfg, before, a);
      }
    }
  }

  /** So what the limiter lets through never exceeds the limit in any window. */
  lemma LimiterLimits(cfg: Config, attempts: seq<Attempt>, key: string, end: Time)
    requires NonDecreasing(attempts)
    ensures |Within(cfg, LetThrough(cfg, attempts, key), end)| <= if cfg.limit > 0 then cfg.limit else 0
  {
    LetThroughIsAccepted(cfg, attempts, key);
    LimitHolds(cfg, attempts, key, end);
  }

  // --- Clocks that run backwards ----------------------------------------------

  /** No reading is more than `back` behind an earlier one. */
  predicate StepsBack(attempts: seq<Attempt>, back: nat) {
    forall i, j :: 0 <= i < j < |attempts| ==> attempts[i].now - back <= attempts[j].now
  }

  /** Over every run on such a clock no window of any key exceeds the limit. */
  ghost predicate KeepsLimit(cfg: Config, back: nat) {
    forall attempts: seq<Attempt>, key, end :: StepsBack(attempts, back) ==>
      |Within(cfg, LetThrough(cfg, attempts, key), end)| <= if cfg.limit > 0 then cfg.limit else 0
  }

  /** The limiter keeps its limit exactly when the clock never runs backwards, or the limit is
      at most one, or the window is empty. */
  lemma KeepsLimitIff(cfg: Config, back: nat)
    ensures KeepsLimit(cfg, back) <==> back == 0 || cfg.limit <= 1 || cfg.window <= 0
  {
    hide StepsBack, Within, LetThrough;
    if back == 0 || cfg.limit <= 1 || cfg.window <= 0 {
      forall attempts: seq<Attempt>, key, end | StepsBack(attempts, back)
        ensures |Within(cfg, LetThrough(cfg, attempts, key), end)| <= if cfg.limit > 0 then cfg.limit else 0
      {
        if cfg.window <= 0 {
          EmptyWindow(cfg, LetThrough(cfg, attempts, key), end);
        } else if cfg.limit <= 1 {
          LimitOfOne(cfg, attempts, key, end);
        } else {
          ForwardClock(attempts);
          LimiterLimits(cfg, attempts, key, end);
        }
      }
    } else {
      BackwardsClock(cfg);
      CountedStepsBack(cfg, back);
      var times := LetThrough(cfg, Overrun(cfg), "k");
      assert |Within(cfg, times, cfg.window - 1)| == cfg.limit + 1;
    }
  }

  lemma {:induction false} ForwardClock(attempts: seq<Attempt>)
    requires StepsBack(attempts, 0)
    ensures NonDecreasing(attempts)
  {
    if |attempts| >= 2 { ForwardClock(attempts[..|attempts| - 1]); }
  }

  lemma {:induction false} EmptyWindow(cfg: Config, times: seq<Time>, end: Time)
    requires cfg.window <= 0
    ensures Within(cfg, times, end) == []
  {
    if times != [] { EmptyWindow(cfg, times[..|times| - 1], end); }
  }

  /** A window apart, each from every earlier one. */
  predicate Spaced(cfg: Config, times: seq<Time>) {
    forall i, j :: 0 <= i < j < |times| ==> times[i] + cfg.window <= times[j]
  }

  lemma {:induction false} SpacedWithin(cfg: Config, times: seq<Time>, end: Time)
    requires Spaced(cfg, times)
    ensures |Within(cfg, times, end)| <= 1
    ensures (forall i :: 0 <= i < |times| ==> times[i] <= end - cfg.window) ==> Within(cfg, times, end) == []
  {
    if times != [] { SpacedWithin(cfg, times[..|times| - 1], end); }
  }

  /** The log is what was let through last, and what was let through is a window apart. */
  predicate OnlyLast(cfg: Config, times: seq<Time>, log: seq<Time>) {
    && Spaced(cfg, times)
    && (cfg.limit <= 0 ==> times == [])
    && log == if times == [] then [] else [times[|times| - 1]]
  }

  lemma OneAttempt(cfg: Config, times: seq<Time>, log: seq<Time>, now: Time)
    requires cfg.limit <= 1 && cfg.window > 0 && OnlyLast(cfg, times, log)
    ensures OnlyLast(cfg, times + if Allowed(cfg, log, now) then [now] else [], Attempted(cfg, log, now))
  {
    if times == [] {
      assert Recent([], now - cfg.window) == [];
    } else {
      FilterOne(times[|times| - 1], now - cfg.window);
    }
    hide Recent;
    assert times + [] == times;
  }

  /** A limit of one needs no clock: what is let through last stays in the log until a whole
      window has passed. */
  lemma {:induction false} LastStays(cfg: Config, attempts: seq<Attempt>, key: string)
    requires cfg.limit <= 1 && cfg.window > 0
    ensures OnlyLast(cfg, LetThrough(cfg, attempts, key), LogOf(Logs(cfg, attempts), key))
  {
    if attempts != [] {
      hide OnlyLast, Allowed, Attempted, LogOf;
      var before, a := attempts[..|attempts| - 1], attempts[|attempts| - 1];
      LastStays(cfg, before, key);
      LastAttempt(cfg, attempts, key);
      if a.key == key {
        OneAttempt(cfg, LetThrough(cfg, before, key), LogOf(Logs(cfg, before), key), a.now);
      } else {
        assert LetThrough(cfg, before, key) + [] == LetThrough(cfg, before, key);
      }
    }
  }

  lemma LimitOfOne(cfg: Config, attempts: seq<Attempt>, key: string, end: Time)
    requires cfg.limit <= 1 && cfg.window > 0
    ensures |Within(cfg, LetThrough(cfg, attempts, key), end)| <= if cfg.limit > 0 then cfg.limit else 0
  {
    LastStays(cfg, attempts, key);
    hide LetThrough, Logs, LogOf;
    SpacedWithin(cfg, LetThrough(cfg, attempts, key), end);
  }

  /** So many attempts at instant zero. */
  function AtZero(n: nat): seq<Attempt> { seq(n, _ => Attempt("k", 0)) }

  function Zeros(n: nat): seq<Time> { seq(n, _ => 0) }

  /** As many attempts as the limit at zero, one a window later, and one just before that. */
  function Overrun(cfg: Config): seq<Attempt>
    requires cfg.limit >= 0
  {
    AtZero(cfg.limit) + [Attempt("k", cfg.window)] + [Attempt("k", cfg.window - 1)]
  }

  lemma CountedStepsBack(cfg: Config, back: nat)
    requires cfg.limit >= 0 && cfg.window > 0 && back > 0
    ensures StepsBack(Overrun(cfg), back)
  {}

  lemma OneMore(cfg: Config, before: seq<Attempt>, a: Attempt)
    ensures
      var log := LogOf(Logs(cfg, before), a.key);
      && LogOf(Logs(cfg, before + [a]), a.key) == Attempted(cfg, log, a.now)
      && LetThrough(cfg, before + [a], a.key)
         == LetThrough(cfg, before, a.key) + if Allowed(cfg, log, a.now) then [a.now] else []
  {
    assert (before + [a])[..|before|] == before;
  }

  lemma FilterOne(t: Time, cutoff: Time)
    ensures Recent([t], cutoff) == if t > cutoff then [t] else []
  {
    assert [t][..0] == [];
  }

  lemma {:induction false} FilterZeros(n: nat, cutoff: Time)
    ensures Recent(Zeros(n), cutoff) == if cutoff < 0 then Zeros(n) else []
  {
    if n > 0 {
      FilterZeros(n - 1, cutoff);
      assert Zeros(n)[..n - 1] == Zeros(n - 1);
    }
  }

  lemma {:induction false} AllLetThrough(cfg: Config, n: nat)
    requires n <= cfg.limit && cfg.window > 0
    ensures LetThrough(cfg, AtZero(n), "k") == LogOf(Logs(cfg, AtZero(n)), "k") == Zeros(n)
  {
    if n > 0 {
      AllLetThrough(cfg, n - 1);
      OneMoreZero(cfg, n - 1);
      hide *;
      OneMore(cfg, AtZero(n - 1), Attempt("k", 0));
      ZerosSnoc(n - 1);
    }
  }

  lemma ZerosSnoc(n: nat)
    ensures AtZero(n + 1) == AtZero(n) + [Attempt("k", 0)] && Zeros(n + 1) == Zeros(n) + [0]
  {}

  lemma OneMoreZero(cfg: Config, n: nat)
    requires n < cfg.limit && cfg.window > 0
    ensures Allowed(cfg, Zeros(n), 0) && Attempted(cfg, Zeros(n), 0) == Zeros(n) + [0]
  {
    FilterZeros(n, -cfg.window);
    assert |Zeros(n)| == n;
    hide Recent, Zeros;
  }

  lemma {:induction false} CountZeros(cfg: Config, n: nat, end: Time)
    requires end - cfg.window < 0 <= end
    ensures |Within(cfg, Zeros(n), end)| == n
  {
    if n > 0 {
      CountZeros(cfg, n - 1, end);
      assert Zeros(n)[..n - 1] == Zeros(n - 1);
    }
  }

  lemma WithinSnoc(cfg: Config, times: seq<Time>, t: Time, end: Time)
    ensures Within(cfg, times + [t], end)
         == Within(cfg, times, end) + if end - cfg.window < t <= end then [t] else []
  {
    assert (times + [t])[..|times|] == times;
  }

  /** An input for every limit above one and every window: the attempt a window later forgets
      those at zero, and one microsecond before it one more than the limit gets into a window. */
  lemma BackwardsClock(cfg: Config)
    requires cfg.limit >= 2 && cfg.window > 0
    ensures LetThrough(cfg, Overrun(cfg), "k") == Zeros(cfg.limit) + [cfg.window] + [cfg.window - 1]
    ensures |Within(cfg, Zeros(cfg.limit) + [cfg.window] + [cfg.window - 1], cfg.window - 1)| == cfg.limit + 1
  {
    hide LetThrough, Logs, LogOf, Recent, Within;
    var n, w := cfg.limit, cfg.window;
    AllLetThrough(cfg, n);
    FilterZeros(n, 0);
    OneMore(cfg, AtZero(n), Attempt("k", w));
    FilterOne(w, -1);
    OneMore(cfg, AtZero(n) + [Attempt("k", w)], Attempt("k", w - 1));
    CountZeros(cfg, n, w - 1);
    WithinSnoc(cfg, Zeros(n), w, w - 1);
    WithinSnoc(cfg, Zeros(n) + [w], w - 1, w - 1);
  }
}
