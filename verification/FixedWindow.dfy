/** Fixed Window Counter: every call, admitted or not, counts against its aligned window. */
module FixedWindow {
  import opened Windows
  import opened WindowCounters

  datatype Config = Config(limit: int, windowMs: int)

  datatype Taken = Taken(counters: Counters, allowed: bool, current: nat)

  function Take(m: Counters, now: int, dropped: set<int>, cfg: Config): Taken
    requires cfg.windowMs > 0
  {
    var k := WindowOf(now, cfg.windowMs);
    var m' := Incr(m, k, now, dropped, cfg.windowMs);
    Taken(m', m'[k].count <= cfg.limit, m'[k].count)
  }

  /** The end of the aligned window. */
  function ResetAt(now: int, cfg: Config): int
    requires cfg.windowMs > 0
  {
    (WindowOf(now, cfg.windowMs) + 1) * cfg.windowMs
  }

  class FixedWindowKeys {
    var counters: Counters

    constructor ()
      ensures counters == map[]
    {
      counters := map[];
    }

    method FixedWindow(now: int, dropped: set<int>, cfg: Config)
      returns (allowed: bool, remaining: int, resetAt: int)
      requires cfg.windowMs > 0
      modifies this
      ensures var t := Take(old(counters), now, dropped, cfg);
              && counters == t.counters && allowed == t.allowed
              && remaining == (if cfg.limit > t.current then cfg.limit - t.current else 0)
      ensures resetAt == ResetAt(now, cfg)
      ensures resetAt - cfg.windowMs <= now < resetAt && resetAt % cfg.windowMs == 0
    {
      var k := WindowOf(now, cfg.windowMs);
      WindowBounds(now, cfg.windowMs, k);
      var current := 1;
      if k in counters && !(k in dropped && now >= counters[k].expiresAt) && counters[k].count != 0 {
        current := counters[k].count + 1;
        counters := counters[k := Counter(current, counters[k].expiresAt)];
      } else {
        counters := counters[k := Counter(1, now + cfg.windowMs)];
      }
      allowed := current <= cfg.limit;
      remaining := if cfg.limit > current then cfg.limit - current else 0;
      resetAt := k * cfg.windowMs + cfg.windowMs;
      assert resetAt == (k + 1) * cfg.windowMs;
      MultipleHasNoRemainder(k + 1, cfg.windowMs);
    }
  }

  lemma {:induction false} MultipleHasNoRemainder(k: int, w: int)
    requires w > 0
    ensures k * w % w == 0
  {
    WindowBounds(k * w, w, k);
    assert k * w == (k * w / w) * w + k * w % w;
  }

  datatype Ran = Ran(counters: Counters, admitted: seq<int>)

  function Run(times: seq<int>, dropped: seq<set<int>>, cfg: Config): Ran
    requires cfg.windowMs > 0 && |dropped| == |times|
  {
    if times == [] then Ran(map[], [])
    else
      var n := |times| - 1;
      var r := Run(times[..n], dropped[..n], cfg);
      var t := Take(r.counters, times[n], dropped[n], cfg);
      Ran(t.counters, if t.allowed then r.admitted + [times[n]] else r.admitted)
  }

  /** The window of the latest call; none earlier is looked at again. */
  function Current(times: seq<int>, cfg: Config): int
    requires cfg.windowMs > 0
  {
    if times == [] then 0 else WindowOf(times[|times| - 1], cfg.windowMs)
  }

  lemma {:induction false} RunIsFaithful(times: seq<int>, dropped: seq<set<int>>, cfg: Config)
    requires cfg.windowMs > 0 && |dropped| == |times| && InOrder(times)
    ensures Faithful(Run(times, dropped, cfg).counters, times, Current(times, cfg), 1, cfg.windowMs)
    ensures times == [] ==> Run(times, dropped, cfg).counters == map[]
  {
    if times != [] {
      var n, w := |times| - 1, cfg.windowMs;
      var m, now := Run(times[..n], dropped[..n], cfg).counters, times[n];
      RunIsFaithful(times[..n], dropped[..n], cfg);
      if n > 0 {
        WindowsInOrder(times[n - 1], now, w);
      }
      assert Faithful(m, times[..n], Current(times, cfg), 1, w);
      IncrStaysFaithful(m, times[..n], Current(times, cfg), 1, now, dropped[n], w);
      assert times[..n] + [now] == times;
    }
  }

  /** Whenever Redis drops expired counters, call i is allowed iff it is among the first `limit`
      calls of its aligned window. */
  lemma {:induction false} AllowedExactly(times: seq<int>, dropped: seq<set<int>>, i: nat, cfg: Config)
    requires cfg.windowMs > 0 && |dropped| == |times| && InOrder(times) && i < |times|
    ensures var m := Run(times[..i], dropped[..i], cfg).counters;
            var earlier := InWindow(times[..i], WindowOf(times[i], cfg.windowMs), cfg.windowMs);
            && (Take(m, times[i], dropped[i], cfg).allowed <==> earlier < cfg.limit)
            && Take(m, times[i], dropped[i], cfg).current == earlier + 1
  {
    var m, k := Run(times[..i], dropped[..i], cfg).counters, WindowOf(times[i], cfg.windowMs);
    RunIsFaithful(times[..i], dropped[..i], cfg);
    if i > 0 {
      WindowsInOrder(times[i - 1], times[i], cfg.windowMs);
    }
    assert Faithful(m, times[..i], k, 1, cfg.windowMs);
    ReadIsExact(m, times[..i], k, 1, k, times[i], dropped[i], cfg.windowMs);
  }

  function Min(a: int, b: int): int { if a < b then a else b }
  function Max(a: int, b: int): int { if a > b then a else b }

  /** Of the calls made in a window, exactly the first `limit` are admitted. */
  lemma {:induction false} AdmittedPerWindow(times: seq<int>, dropped: seq<set<int>>, k: int, cfg: Config)
    requires cfg.windowMs > 0 && |dropped| == |times| && InOrder(times)
    ensures InWindow(Run(times, dropped, cfg).admitted, k, cfg.windowMs)
         == Min(InWindow(times, k, cfg.windowMs), Max(cfg.limit, 0))
  {
    if times != [] {
      var n := |times| - 1;
      var r := Run(times[..n], dropped[..n], cfg);
      AdmittedPerWindow(times[..n], dropped[..n], k, cfg);
      AllowedExactly(times, dropped, n, cfg);
      InWindowSnoc(r.admitted, times[n], k, cfg.windowMs);
    }
  }

  /** An interval of one window's length lies in two aligned windows. */
  lemma {:induction false} IntervalSpansTwoWindows(admitted: seq<int>, lo: int, w: int)
    requires w > 0
    ensures CountIn(admitted, lo, lo + w)
         <= InWindow(admitted, WindowOf(lo, w), w) + InWindow(admitted, WindowOf(lo, w) + 1, w)
  {
    var k := WindowOf(lo, w);
    WindowBounds(lo, w, k);
    InWindowIsCountIn(admitted, k, w);
    InWindowIsCountIn(admitted, k + 1, w);
    assert (k + 1) * w == k * w + w && (k + 1 + 1) * w == k * w + w + w;
    CountSplit(admitted, k * w, lo, (k + 1) * w);
    CountSplit(admitted, lo, (k + 1) * w, lo + w);
    CountSplit(admitted, (k + 1) * w, lo + w, (k + 1 + 1) * w);
  }

  /** A burst across a window boundary gets at most twice the limit through in any half-open
      interval of one window's length. */
  lemma {:induction false} AtMostTwiceTheLimit(times: seq<int>, dropped: seq<set<int>>, lo: int, cfg: Config)
    requires cfg.windowMs > 0 && |dropped| == |times| && InOrder(times)
    ensures CountIn(Run(times, dropped, cfg).admitted, lo, lo + cfg.windowMs) <= 2 * Max(cfg.limit, 0)
  {
    var k := WindowOf(lo, cfg.windowMs);
    AdmittedPerWindow(times, dropped, k, cfg);
    AdmittedPerWindow(times, dropped, k + 1, cfg);
    IntervalSpansTwoWindows(Run(times, dropped, cfg).admitted, lo, cfg.windowMs);
  }

  /** The next call after a run, whenever it comes. */
  lemma NextAllowed(times: seq<int>, dropped: seq<set<int>>, later: int, drop: set<int>, cfg: Config)
    requires cfg.windowMs > 0 && |dropped| == |times| && InOrder(times)
    requires times != [] ==> times[|times| - 1] <= later
    ensures Take(Run(times, dropped, cfg).counters, later, drop, cfg).allowed <==>
            InWindow(times, WindowOf(later, cfg.windowMs), cfg.windowMs) < cfg.limit
  {
    var all, drops := times + [later], dropped + [drop];
    assert all[..|times|] == times && drops[..|times|] == dropped;
    AllowedExactly(all, drops, |times|, cfg);
  }

  lemma LaterWindowIsEmpty(times: seq<int>, k: int, cfg: Config)
    requires cfg.windowMs > 0 && InOrder(times) && times != [] && WindowOf(times[|times| - 1], cfg.windowMs) < k
    ensures InWindow(times, k, cfg.windowMs) == 0
  {
    forall i | 0 <= i < |times|
      ensures WindowOf(times[i], cfg.windowMs) != k
    {
      WindowsInOrder(times[i], times[|times| - 1], cfg.windowMs);
    }
    InWindowNone(times, k, cfg.windowMs);
  }

  /** After a denied call, and with no call in between, a call is denied at every moment before resetAt
      and allowed at every moment from then on. */
  lemma ResetAtIsExact(times: seq<int>, dropped: seq<set<int>>, later: int, drop: set<int>, cfg: Config)
    requires cfg.windowMs > 0 && cfg.limit >= 1 && |dropped| == |times| && InOrder(times)
    requires times != [] && times[|times| - 1] <= later
    requires var n := |times| - 1;
             !Take(Run(times[..n], dropped[..n], cfg).counters, times[n], dropped[n], cfg).allowed
    ensures Take(Run(times, dropped, cfg).counters, later, drop, cfg).allowed
            <==> later >= ResetAt(times[|times| - 1], cfg)
  {
    var last, w := times[|times| - 1], cfg.windowMs;
    DeniedMeansFull(times, dropped, cfg);
    NextAllowed(times, dropped, later, drop, cfg);
    PastResetIff(last, later, cfg);
    if WindowOf(last, w) < WindowOf(later, w) {
      LaterWindowIsEmpty(times, WindowOf(later, w), cfg);
    }
  }

  lemma PastResetIff(last: int, later: int, cfg: Config)
    requires cfg.windowMs > 0 && last <= later
    ensures later >= ResetAt(last, cfg) <==> WindowOf(last, cfg.windowMs) < WindowOf(later, cfg.windowMs)
    ensures WindowOf(last, cfg.windowMs) <= WindowOf(later, cfg.windowMs)
  {
    WindowBounds(later, cfg.windowMs, WindowOf(last, cfg.windowMs) + 1);
    WindowsInOrder(last, later, cfg.windowMs);
  }

  lemma DeniedMeansFull(times: seq<int>, dropped: seq<set<int>>, cfg: Config)
    requires cfg.windowMs > 0 && |dropped| == |times| && InOrder(times) && times != []
    requires var n := |times| - 1;
             !Take(Run(times[..n], dropped[..n], cfg).counters, times[n], dropped[n], cfg).allowed
    ensures InWindow(times, WindowOf(times[|times| - 1], cfg.windowMs), cfg.windowMs) >= cfg.limit
  {
    AllowedExactly(times, dropped, |times| - 1, cfg);
  }
}
