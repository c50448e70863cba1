/** Sliding Window Log: one sorted-set entry per admitted call. The exact limiter. */
module SlidingWindowLog {
  import opened Windows

  datatype Config = Config(limit: int, windowMs: int)

  /** ZREMRANGEBYSCORE key 0 cutoff: keeps the scores outside [0, cutoff]. */
  function Trim(log: seq<int>, cutoff: int): seq<int> {
    if log == [] then []
    else Trim(log[..|log| - 1], cutoff) +
         if 0 <= log[|log| - 1] <= cutoff then [] else [log[|log| - 1]]
  }

  /** The sorted set with the moment its last ZADD lets it expire. */
  datatype Key = Key(log: seq<int>, expiresAt: int)

  datatype Taken = Taken(key: Key, allowed: bool)

  /** What the script finds at `now`: Redis drops the key at some moment of its choice once it has
      expired, and `gone` is that choice. */
  function Found(key: Key, now: int, gone: bool): seq<int> {
    if gone && now >= key.expiresAt then [] else key.log
  }

  function Take(key: Key, now: int, gone: bool, cfg: Config): Taken {
    var log := Trim(Found(key, now, gone), now - cfg.windowMs);
    if |log| < cfg.limit then Taken(Key(log + [now], now + cfg.windowMs), true)
    else Taken(Key(log, key.expiresAt), false)
  }

  class LogKey {
    var log: seq<int>
    var expiresAt: int

    function Value(): Key
      reads this
    {
      Key(log, expiresAt)
    }

    constructor ()
      ensures log == []
    {
      log, expiresAt := [], 0;
    }

    /** slidingWindowLog, for a key that has not been dropped. */
    method SlidingWindowLog(now: int, cfg: Config) returns (allowed: bool, remaining: int, resetAt: int)
      modifies this
      ensures Taken(Value(), allowed) == Take(old(Value()), now, false, cfg)
      ensures remaining == if cfg.limit > |log| then cfg.limit - |log| else 0
      ensures resetAt == now + cfg.windowMs
    {
      ghost var before := log;
      var kept: seq<int> := [];
      for i := 0 to |log|
        invariant kept == Trim(log[..i], now - cfg.windowMs)
        invariant log == before
      {
        assert log[..i + 1][..i] == log[..i];
        if !(0 <= log[i] <= now - cfg.windowMs) {
          kept := kept + [log[i]];
        }
      }
      assert log[..|log|] == log;
      log := kept;
      allowed := |log| < cfg.limit;
      if allowed {
        log := log + [now];
        expiresAt := now + cfg.windowMs;
      }
      remaining := if cfg.limit > |log| then cfg.limit - |log| else 0;
      resetAt := now + cfg.windowMs;
    }
  }

  /** The key and the admitted moments after a run of calls, `gone` saying when Redis drops. */
  datatype Ran = Ran(key: Key, admitted: seq<int>)

  function Run(times: seq<int>, gone: seq<bool>, cfg: Config): Ran
    requires |gone| == |times|
  {
    if times == [] then Ran(Key([], 0), [])
    else
      var n := |times| - 1;
      Advance(Run(times[..n], gone[..n], cfg), times[n], gone[n], cfg)
  }

  function Advance(r: Ran, now: int, gone: bool, cfg: Config): Ran {
    var t := Take(r.key, now, gone, cfg);
    Ran(t.key, if t.allowed then r.admitted + [now] else r.admitted)
  }

  lemma {:induction false} TrimSnoc(log: seq<int>, t: int, cutoff: int)
    ensures Trim(log + [t], cutoff) == Trim(log, cutoff) + if 0 <= t <= cutoff then [] else [t]
  {
    assert (log + [t])[..|log|] == log;
  }

  lemma {:induction false} TrimTwice(log: seq<int>, a: int, b: int)
    requires a <= b
    ensures Trim(Trim(log, a), b) == Trim(log, b)
  {
    if log != [] {
      var n := |log| - 1;
      TrimTwice(log[..n], a, b);
      TrimSnoc(Trim(log[..n], a), log[n], b);
      assert Trim(log[..n], a) + [] == Trim(log[..n], a) && Trim(log[..n], b) + [] == Trim(log[..n], b);
    }
  }

  lemma {:induction false} TrimAll(log: seq<int>, cutoff: int)
    requires forall i :: 0 <= i < |log| ==> 0 <= log[i] <= cutoff
    ensures Trim(log, cutoff) == []
  {
    if log != [] {
      TrimAll(log[..|log| - 1], cutoff);
    }
  }

  lemma {:induction false} TrimCounts(log: seq<int>, cutoff: int, now: int)
    requires forall i :: 0 <= i < |log| ==> 0 <= log[i] <= now
    ensures |Trim(log, cutoff)| == CountIn(log, cutoff + 1, now + 1)
  {
    if log != [] {
      TrimCounts(log[..|log| - 1], cutoff, now);
    }
  }

  ghost predicate Within(xs: seq<int>, hi: int) { forall i :: 0 <= i < |xs| ==> 0 <= xs[i] <= hi }

  /** The log agrees with the whole history of admitted calls on all that can still matter: what is
      left of either after trimming at the latest cutoff, and, once the key may have expired,
      nothing. */
  ghost predicate Agrees(r: Ran, now: int, cfg: Config) {
    && Within(r.admitted, now)
    && Within(r.admitted, r.key.expiresAt - cfg.windowMs)
    && Trim(r.key.log, now - cfg.windowMs) == Trim(r.admitted, now - cfg.windowMs)
  }

  lemma {:induction false} FoundAgrees(r: Ran, last: int, now: int, gone: bool, cfg: Config)
    requires last <= now && Agrees(r, last, cfg)
    ensures Trim(Found(r.key, now, gone), now - cfg.windowMs) == Trim(r.admitted, now - cfg.windowMs)
  {
    if gone && now >= r.key.expiresAt {
      TrimAll(r.admitted, now - cfg.windowMs);
    } else {
      TrimTwice(r.key.log, last - cfg.windowMs, now - cfg.windowMs);
      TrimTwice(r.admitted, last - cfg.windowMs, now - cfg.windowMs);
    }
  }

  /** Fewer than `limit` calls were admitted in the windowMs up to and including now. */
  ghost predicate HasRoom(admitted: seq<int>, now: int, cfg: Config) {
    CountIn(admitted, now - cfg.windowMs + 1, now + 1) < cfg.limit
  }

  lemma {:induction false} AllowedIffRoom(r: Ran, last: int, now: int, gone: bool, cfg: Config)
    requires last <= now && Agrees(r, last, cfg)
    ensures Take(r.key, now, gone, cfg).allowed <==> HasRoom(r.admitted, now, cfg)
  {
    FoundAgrees(r, last, now, gone, cfg);
    TrimCounts(r.admitted, now - cfg.windowMs, now);
  }

  lemma {:induction false} TrimThenAdmit(admitted: seq<int>, now: int, cutoff: int)
    ensures Trim(Trim(admitted, cutoff) + [now], cutoff) == Trim(admitted + [now], cutoff)
  {
    TrimTwice(admitted, cutoff, cutoff);
    TrimSnoc(Trim(admitted, cutoff), now, cutoff);
    TrimSnoc(admitted, now, cutoff);
  }

  lemma {:induction false} AdmittingAgrees(admitted: seq<int>, now: int, cfg: Config)
    requires 0 <= now && Within(admitted, now)
    ensures Agrees(Ran(Key(Trim(admitted, now - cfg.windowMs) + [now], now + cfg.windowMs), admitted + [now]), now, cfg)
  {
    assert Within(admitted + [now], now);
    var cutoff := now - cfg.windowMs;
    assert Trim(Trim(admitted, cutoff) + [now], cutoff) == Trim(admitted + [now], cutoff) by {
      TrimThenAdmit(admitted, now, cutoff);
    }
  }

  lemma {:induction false} DenyingAgrees(admitted: seq<int>, expiresAt: int, now: int, cfg: Config)
    requires Within(admitted, now) && Within(admitted, expiresAt - cfg.windowMs)
    ensures Agrees(Ran(Key(Trim(admitted, now - cfg.windowMs), expiresAt), admitted), now, cfg)
  {
    TrimTwice(admitted, now - cfg.windowMs, now - cfg.windowMs);
  }

  lemma {:induction false} AdvanceAgrees(r: Ran, last: int, now: int, gone: bool, cfg: Config)
    requires last <= now && 0 <= now && Agrees(r, last, cfg)
    ensures Agrees(Advance(r, now, gone, cfg), now, cfg)
  {
    var kept := Trim(r.admitted, now - cfg.windowMs);
    assert Trim(Found(r.key, now, gone), now - cfg.windowMs) == kept by { FoundAgrees(r, last, now, gone, cfg); }
    assert Within(r.admitted, now);
    if |kept| < cfg.limit {
      assert Advance(r, now, gone, cfg) == Ran(Key(kept + [now], now + cfg.windowMs), r.admitted + [now]);
      AdmittingAgrees(r.admitted, now, cfg);
    } else {
      assert Advance(r, now, gone, cfg) == Ran(Key(kept, r.key.expiresAt), r.admitted);
      DenyingAgrees(r.admitted, r.key.expiresAt, now, cfg);
    }
  }

  ghost predicate ClockOk(times: seq<int>) { InOrder(times) && forall i :: 0 <= i < |times| ==> 0 <= times[i] }

  function Last(times: seq<int>): int { if times == [] then 0 else times[|times| - 1] }

  lemma {:induction false} RunAgrees(times: seq<int>, gone: seq<bool>, cfg: Config)
    requires |gone| == |times| && cfg.windowMs >= 0 && ClockOk(times)
    ensures Agrees(Run(times, gone, cfg), Last(times), cfg)
  {
    if times != [] {
      var n := |times| - 1;
      RunAgrees(times[..n], gone[..n], cfg);
      AdvanceAgrees(Run(times[..n], gone[..n], cfg), Last(times[..n]), times[n], gone[n], cfg);
    }
  }

  /** The limiter is exact: whenever Redis drops expired keys, call i is allowed iff fewer than
      `limit` earlier calls were admitted in the windowMs up to and including its moment. */
  lemma {:induction false} AllowedExactly(times: seq<int>, gone: seq<bool>, i: nat, cfg: Config)
    requires |gone| == |times| && cfg.windowMs >= 0 && ClockOk(times) && i < |times|
    ensures var r := Run(times[..i], gone[..i], cfg);
            Take(r.key, times[i], gone[i], cfg).allowed <==> HasRoom(r.admitted, times[i], cfg)
  {
    RunAgrees(times[..i], gone[..i], cfg);
    AllowedIffRoom(Run(times[..i], gone[..i], cfg), Last(times[..i]), times[i], gone[i], cfg);
  }

  /** At most `limit` of the moments lie in [lo, lo + windowMs). */
  ghost predicate LimitHolds(admitted: seq<int>, lo: int, cfg: Config) {
    CountIn(admitted, lo, lo + cfg.windowMs) <= if cfg.limit > 0 then cfg.limit else 0
  }

  lemma {:induction false} AdmissionKeepsLimit(admitted: seq<int>, now: int, lo: int, cfg: Config)
    requires Within(admitted, now) && LimitHolds(admitted, lo, cfg)
    requires HasRoom(admitted, now, cfg)
    ensures LimitHolds(admitted + [now], lo, cfg)
  {
    CountSnoc(admitted, now, lo, lo + cfg.windowMs);
    if lo <= now < lo + cfg.windowMs {
      CountSplit(admitted, now - cfg.windowMs + 1, lo, now + 1);
      CountSplit(admitted, lo, now + 1, lo + cfg.windowMs);
      CountNone(admitted, now + 1, lo + cfg.windowMs);
    }
  }

  /** No half-open interval of length windowMs ever holds more than `limit` admitted calls. */
  lemma {:induction false} NeverMoreThanLimit(times: seq<int>, gone: seq<bool>, lo: int, cfg: Config)
    requires |gone| == |times| && cfg.windowMs >= 0 && ClockOk(times)
    ensures LimitHolds(Run(times, gone, cfg).admitted, lo, cfg)
  {
    if times != [] {
      var n := |times| - 1;
      NeverMoreThanLimit(times[..n], gone[..n], lo, cfg);
      AllowedExactly(times, gone, n, cfg);
      RunAgrees(times[..n], gone[..n], cfg);
      var r := Run(times[..n], gone[..n], cfg);
      if Take(r.key, times[n], gone[n], cfg).allowed {
        assert Within(r.admitted, times[n]);
        AdmissionKeepsLimit(r.admitted, times[n], lo, cfg);
      }
    }
  }

  lemma {:induction false} AdmittedUpTo(times: seq<int>, gone: seq<bool>, hi: int, cfg: Config)
    requires |gone| == |times| && cfg.windowMs >= 0 && ClockOk(times) && Last(times) <= hi
    ensures Within(Run(times, gone, cfg).admitted, hi)
  {
    RunAgrees(times, gone, cfg);
  }

  lemma {:induction false} InOrderSnoc(xs: seq<int>, t: int)
    requires InOrder(xs) && Within(xs, t)
    ensures InOrder(xs + [t])
  {
  }

  lemma {:induction false} AdmittedInOrder(times: seq<int>, gone: seq<bool>, cfg: Config)
    requires |gone| == |times| && cfg.windowMs >= 0 && ClockOk(times)
    ensures InOrder(Run(times, gone, cfg).admitted)
  {
    if times != [] {
      var n := |times| - 1;
      AdmittedInOrder(times[..n], gone[..n], cfg);
      AdmittedUpTo(times[..n], gone[..n], times[n], cfg);
      InOrderSnoc(Run(times[..n], gone[..n], cfg).admitted, times[n]);
    }
  }

  /** In a sequence in order, fewer than `limit` moments lie after x iff the limit-th from the end does
      not, or there are not that many. */
  lemma {:induction false} FewerIff(xs: seq<int>, x: int, hi: int, limit: int)
    requires InOrder(xs) && limit >= 1 && forall i :: 0 <= i < |xs| ==> xs[i] <= hi
    ensures CountIn(xs, x + 1, hi + 1) < limit <==> |xs| < limit || xs[|xs| - limit] <= x
    decreases |xs|
  {
    if xs != [] {
      var n := |xs| - 1;
      if xs[n] <= x {
        CountNone(xs, x + 1, hi + 1);
      } else if limit > 1 {
        FewerIff(xs[..n], x, hi, limit - 1);
      }
    }
  }

  lemma {:induction false} NextAllowed(times: seq<int>, gone: seq<bool>, later: int, drop: bool, cfg: Config)
    requires |gone| == |times| && cfg.windowMs >= 0 && ClockOk(times) && Last(times) <= later
    ensures var r := Run(times, gone, cfg);
            Take(r.key, later, drop, cfg).allowed <==> HasRoom(r.admitted, later, cfg)
  {
    RunAgrees(times, gone, cfg);
    AllowedIffRoom(Run(times, gone, cfg), Last(times), later, drop, cfg);
  }

  /** The moment from which the limit-th last admitted call no longer counts. */
  ghost predicate Retriable(admitted: seq<int>, later: int, cfg: Config)
    requires cfg.limit >= 1
  {
    |admitted| < cfg.limit || admitted[|admitted| - cfg.limit] + cfg.windowMs <= later
  }

  lemma {:induction false} RoomIff(admitted: seq<int>, later: int, cfg: Config)
    requires cfg.limit >= 1 && InOrder(admitted) && Within(admitted, later)
    ensures HasRoom(admitted, later, cfg) <==> Retriable(admitted, later, cfg)
  {
    FewerIff(admitted, later - cfg.windowMs, later, cfg.limit);
  }

  /** With no call in between, the next call is allowed exactly from windowMs after the limit-th last
      admitted one on; so it is certainly allowed from the reported resetAt on. */
  lemma {:induction false} RetryExactly(times: seq<int>, gone: seq<bool>, later: int, drop: bool, cfg: Config)
    requires |gone| == |times| && cfg.windowMs >= 0 && cfg.limit >= 1 && ClockOk(times) && Last(times) <= later
    ensures var r := Run(times, gone, cfg);
            Take(r.key, later, drop, cfg).allowed <==> Retriable(r.admitted, later, cfg)
    ensures later >= Last(times) + cfg.windowMs ==> Take(Run(times, gone, cfg).key, later, drop, cfg).allowed
  {
    var admitted := Run(times, gone, cfg).admitted;
    NextAllowed(times, gone, later, drop, cfg);
    AdmittedInOrder(times, gone, cfg);
    AdmittedUpTo(times, gone, Last(times), cfg);
    RoomIff(admitted, later, cfg);
  }

  /** The log after a call holds exactly the calls admitted in the window up to it, so that what it
      reports as remaining is what is left of the limit. */
  lemma {:induction false} LogIsTheWindow(times: seq<int>, gone: seq<bool>, now: int, drop: bool, cfg: Config)
    requires |gone| == |times| && cfg.windowMs > 0 && ClockOk(times) && Last(times) <= now
    ensures var r, t := Run(times, gone, cfg), Take(Run(times, gone, cfg).key, now, drop, cfg);
            |t.key.log| == CountIn(r.admitted, now - cfg.windowMs + 1, now + 1) + if t.allowed then 1 else 0
  {
    RunAgrees(times, gone, cfg);
    LogCounts(Run(times, gone, cfg), Last(times), now, drop, cfg);
  }

  lemma {:induction false} TrimmedCounts(r: Ran, last: int, now: int, drop: bool, cfg: Config)
    requires last <= now && Agrees(r, last, cfg)
    ensures |Trim(Found(r.key, now, drop), now - cfg.windowMs)| == CountIn(r.admitted, now - cfg.windowMs + 1, now + 1)
  {
    FoundAgrees(r, last, now, drop, cfg);
    TrimCounts(r.admitted, now - cfg.windowMs, now);
  }

  lemma {:induction false} LogCounts(r: Ran, last: int, now: int, drop: bool, cfg: Config)
    requires last <= now && Agrees(r, last, cfg)
    ensures var t := Take(r.key, now, drop, cfg);
            |t.key.log| == CountIn(r.admitted, now - cfg.windowMs + 1, now + 1) + if t.allowed then 1 else 0
  {
    TrimmedCounts(r, last, now, drop, cfg);
  }
}
