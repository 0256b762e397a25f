/** The limiter's log of one key, compacted inside its own array. */
module RateLimiterLog {
  import opened Wrappers
  import opened RateLimiter

  /** Moves what is after the cutoff to the front of the array, in order. */
  method MoveRecent(a: array<Time>, n: nat, cutoff: Time) returns (kept: nat)
    requires n <= a.Length
    modifies a
    ensures kept <= n && a[..kept] == Recent(old(a[..n]), cutoff)
  {
    ghost var was := a[..n];
    ghost var recent := [];
    kept := 0;
    hide Recent, RecentUpTo;
    NoneOf(was, cutoff);
    for i := 0 to n
      invariant recent == RecentUpTo(was, i, cutoff) && kept == |recent| <= i
      invariant forall k :: 0 <= k < kept ==> a[k] == recent[k]
      invariant forall k :: i <= k < n ==> a[k] == was[k]
    {
      OneMoreOf(was, i, cutoff);
      if a[i] > cutoff {
        a[kept] := a[i];
        kept := kept + 1;
        recent := recent + [was[i]];
      }
    }
    AllOf(was, cutoff);
  }

  function RecentUpTo(times: seq<Time>, i: nat, cutoff: Time): seq<Time>
    requires i <= |times|
  {
    Recent(times[..i], cutoff)
  }

  lemma NoneOf(times: seq<Time>, cutoff: Time)
    ensures RecentUpTo(times, 0, cutoff) == []
  {}

  lemma OneMoreOf(times: seq<Time>, i: nat, cutoff: Time)
    requires i < |times|
    ensures RecentUpTo(times, i + 1, cutoff)
         == RecentUpTo(times, i, cutoff) + if times[i] > cutoff then [times[i]] else []
  {
    assert times[..i + 1] == times[..i] + [times[i]];
    RecentSnoc(times[..i], times[i], cutoff);
    hide Recent;
  }

  lemma AllOf(times: seq<Time>, cutoff: Time)
    ensures RecentUpTo(times, |times|, cutoff) == Recent(times, cutoff)
  {
    assert times[..|times|] == times;
  }

  /** A growing slice: `len` values at the front of an array. */
  class AttemptLog {
    var data: array<Time>
    var len: nat

    ghost predicate Valid()
      reads this
    {
      len <= data.Length
    }

    ghost function Times(): seq<Time>
      reads this, data
      requires Valid()
    {
      data[..len]
    }

    constructor ()
      ensures Valid() && fresh(data) && Times() == []
    {
      data, len := new Time[0], 0;
    }

    /** Keeps what is after the cutoff by moving it to the front, without a second array. */
    method Compact(cutoff: Time)
      requires Valid()
      modifies this`len, data
      ensures Valid() && data == old(data) && Times() == Recent(old(Times()), cutoff)
    {
      len := MoveRecent(data, len, cutoff);
    }

    method Append(t: Time)
      requires Valid()
      modifies this, data
      ensures Valid() && Times() == old(Times()) + [t]
      ensures data == old(data) || fresh(data)
    {
      if len == data.Length {
        var bigger := new Time[2 * data.Length + 1](_ => 0);
        for i := 0 to len
          invariant data == old(data) && len == old(len) == data.Length && data[..] == old(data[..])
          invariant bigger[..i] == data[..i]
        {
          bigger[i] := data[i];
        }
        data := bigger;
      }
      data[len] := t;
      len := len + 1;
    }
  }

  /** One key's decision, made on the log in place. */
  method AllowIn(cfg: Config, log: AttemptLog, now: Time) returns (allowed: bool)
    requires log.Valid()
    modifies log, log.data
    ensures log.Valid() && (log.data == old(log.data) || fresh(log.data))
    ensures allowed == Allowed(cfg, old(log.Times()), now)
    ensures log.Times() == Attempted(cfg, old(log.Times()), now)
    ensures
      var before := old(log.Times());
      && (allowed <==> |LaterThan(now - cfg.window, before)| < cfg.limit)
      && log.Times() == Recent(before, now - cfg.window) + if allowed then [now] else []
  {
    RecentCount(log.Times(), now - cfg.window);
    log.Compact(now - cfg.window);
    if log.len >= cfg.limit {
      assert log.Times() + [] == log.Times();
      return false;
    }
    log.Append(now);
    return true;
  }

  /** The limiter: one log for each key, and no array in two of them. */
  class Limiter {
    const cfg: Config
    var attempts: map<string, AttemptLog>

    ghost function Arrays(): set<array<Time>>
      reads this, attempts.Values
    {
      set k | k in attempts :: attempts[k].data
    }

    ghost predicate Valid()
      reads this, attempts.Values
    {
      && (forall k :: k in attempts ==> attempts[k].Valid())
      && (forall a, b :: a in attempts && b in attempts && a != b ==>
            attempts[a] != attempts[b] && attempts[a].data != attempts[b].data)
    }

    ghost function Contents(): map<string, seq<Time>>
      reads this, attempts.Values, Arrays()
      requires Valid()
    {
      map k | k in attempts :: attempts[k].Times()
    }

    constructor (cfg: Config)
      ensures Valid() && this.cfg == cfg && Contents() == map[]
    {
      this.cfg, attempts := cfg, map[];
    }

    /** A key that was never seen gets an empty log. */
    method Open(key: string)
      requires Valid()
      modifies this`attempts
      ensures Valid() && key in attempts
      ensures forall k :: k in old(attempts) ==> k in attempts && attempts[k] == old(attempts[k])
      ensures key !in old(attempts) ==> fresh(attempts[key]) && fresh(attempts[key].data)
      ensures Contents() == old(Contents())[key := LogOf(old(Contents()), key)]
    {
      if key !in attempts {
        var log := new AttemptLog();
        attempts := attempts[key := log];
      }
    }

    lemma ContentsAt()
      requires Valid()
      ensures Contents().Keys == attempts.Keys
      ensures forall k :: k in attempts ==> Contents()[k] == attempts[k].Times()
    {}

    lemma ContentsAre(times: map<string, seq<Time>>)
      requires Valid() && times.Keys == attempts.Keys
      requires forall k :: k in attempts ==> attempts[k].Times() == times[k]
      ensures Contents() == times
    {}

    /** The log of a known key, compacted and extended in place; no other is touched. */
    method Decide(key: string, now: Time) returns (allowed: bool)
      requires Valid() && key in attempts
      modifies attempts[key], attempts[key].data
      ensures Valid() && (attempts[key].data == old(attempts[key].data) || fresh(attempts[key].data))
      ensures allowed == Allowed(cfg, old(Contents())[key], now)
      ensures Contents() == old(Contents())[key := Attempted(cfg, old(Contents())[key], now)]
    {
      hide Allowed, Attempted, Recent, Contents;
      ghost var before := Contents();
      ContentsAt();
      allowed := AllowIn(cfg, attempts[key], now);
      assert forall k :: k in attempts && k != key ==>
          attempts[k].data == old(attempts[k].data) && attempts[k].len == old(attempts[k].len);
      ContentsAre(before[key := attempts[key].Times()]);
    }

    /** One attempt. */
    method Allow(key: string, now: Time) returns (allowed: bool)
      requires Valid()
      modifies this`attempts, attempts.Values, Arrays()
      ensures Valid()
      ensures allowed == Allowed(cfg, LogOf(old(Contents()), key), now)
      ensures Contents() == old(Contents())[key := Attempted(cfg, LogOf(old(Contents()), key), now)]
    {
      hide Allowed, Attempted, Recent, LogOf, Valid, Contents;
      Open(key);
      allowed := Decide(key, now);
    }
  }
}
