/** Sliding Window Counter: the previous aligned window's count, weighted by how much of it still
    overlaps the sliding window, plus the current one's. */
module SlidingWindowCounter {
  import opened Windows
  import opened WindowCounters

  datatype Config = Config(limit: int, windowMs: int)

  /** How far `now` is into window k, as a fraction. */
  function Fraction(now: int, k: int, windowMs: int): real
    requires windowMs > 0
  {
    (now - k * windowMs) as real / windowMs as real
  }

  function Weighted(prev: nat, curr: nat, fraction: real): real {
    prev as real * (1.0 - fraction) + curr as real
  }

  datatype Taken = Taken(counters: Counters, allowed: bool, weighted: real)

  function Take(m: Counters, now: int, dropped: set<int>, cfg: Config): Taken
    requires cfg.windowMs > 0
  {
    var k := WindowOf(now, cfg.windowMs);
    var weighted := Weighted(Read(m, k - 1, now, dropped), Read(m, k, now, dropped), Fraction(now, k, cfg.windowMs));
    if weighted < cfg.limit as real then
      Taken(Incr(m, k, now, dropped, 2 * cfg.windowMs), true, weighted + 1.0)
    else
      Taken(m, false, weighted)
  }

  /** The whole calls left under the limit, as the caller is told. */
  function RemainingOf(weighted: real, cfg: Config): int {
    var left := (cfg.limit as real - weighted).Floor;
    if left > 0 then left else 0
  }

  /** The end of the aligned window. */
  function ResetAt(now: int, cfg: Config): int
    requires cfg.windowMs > 0
  {
    (WindowOf(now, cfg.windowMs) + 1) * cfg.windowMs
  }

  class CounterKeys {
    var counters: Counters

    constructor ()
      ensures counters == map[]
    {
      counters := map[];
    }

    method SlidingWindowCounter(now: int, dropped: set<int>, cfg: Config)
      returns (allowed: bool, remaining: int, resetAt: int)
      requires cfg.windowMs > 0
      modifies this
      ensures var t := Take(old(counters), now, dropped, cfg);
              && counters == t.counters && allowed == t.allowed
              && remaining == RemainingOf(t.weighted, cfg)
      ensures resetAt == ResetAt(now, cfg)
    {
      var k := WindowOf(now, cfg.windowMs);
      var curr := Get(k, now, dropped);
      var prev := Get(k - 1, now, dropped);
      var weighted := Weighted(prev, curr, Fraction(now, k, cfg.windowMs));
      allowed := weighted < cfg.limit as real;
      if allowed {
        if curr == 0 {
          counters := counters[k := Counter(1, now + 2 * cfg.windowMs)];
        } else {
          counters := counters[k := Counter(curr + 1, counters[k].expiresAt)];
        }
        weighted := weighted + 1.0;
      }
      remaining := RemainingOf(weighted, cfg);
      resetAt := (k + 1) * cfg.windowMs;
    }

    method Get(k: int, now: int, dropped: set<int>) returns (count: nat)
      ensures count == Read(counters, k, now, dropped)
    {
      count := 0;
      if k in counters && !(k in dropped && now >= counters[k].expiresAt) {
        count := counters[k].count;
      }
    }
  }

  datatype Ran = Ran(counters: Counters, admitted: seq<int>)

  function Run(times: seq<int>, dropped: seq<set<int>>, cfg: Config): Ran
    requires cfg.windowMs > 0 && |dropped| == |times|
  {
    if times == [] then Ran(map[], [])
    else
      var n := |times| - 1;
      var r := Run(times[..n], dropped[..n], cfg);
      var t := Take(r.counters, times[n], dropped[n], cfg);
      Ran(t.counters, if t.allowed then r.admitted + [times[n]] else r.admitted)
  }

  /** The estimate on which a call at `now` is decided. */
  ghost function Estimate(admitted: seq<int>, now: int, cfg: Config): real
    requires cfg.windowMs > 0
  {
    var k := WindowOf(now, cfg.windowMs);
    Weighted(InWindow(admitted, k - 1, cfg.windowMs), InWindow(admitted, k, cfg.windowMs),
             Fraction(now, k, cfg.windowMs))
  }

  /** What the counters and the admitted calls say about each other after calls up to `now`. */
  ghost predicate Agrees(r: Ran, now: int, cfg: Config)
    requires cfg.windowMs > 0
  {
    && Faithful(r.counters, r.admitted, WindowOf(now, cfg.windowMs) - 1, 2, cfg.windowMs)
    && (forall i :: 0 <= i < |r.admitted| ==> r.admitted[i] <= now)
  }

  lemma {:induction false} StepAgrees(r: Ran, last: int, now: int, dropped: set<int>, cfg: Config)
    requires cfg.windowMs > 0 && last <= now && Agrees(r, last, cfg)
    ensures var t := Take(r.counters, now, dropped, cfg);
            && Agrees(Ran(t.counters, if t.allowed then r.admitted + [now] else r.admitted), now, cfg)
            && (t.allowed <==> Estimate(r.admitted, now, cfg) < cfg.limit as real)
            && t.weighted == Estimate(r.admitted, now, cfg) + if t.allowed then 1.0 else 0.0
  {
    var w := cfg.windowMs;
    var k := WindowOf(now, w);
    WindowsInOrder(last, now, w);
    assert Faithful(r.counters, r.admitted, k - 1, 2, w);
    ReadIsExact(r.counters, r.admitted, k - 1, 2, k - 1, now, dropped, w);
    ReadIsExact(r.counters, r.admitted, k - 1, 2, k, now, dropped, w);
    IncrStaysFaithful(r.counters, r.admitted, k - 1, 2, now, dropped, w);
  }

  lemma {:induction false} AgreesLater(r: Ran, last: int, now: int, cfg: Config)
    requires cfg.windowMs > 0 && last <= now && Agrees(r, last, cfg)
    ensures Agrees(r, now, cfg)
  {
    WindowsInOrder(last, now, cfg.windowMs);
  }

  lemma {:induction false} RunAgrees(times: seq<int>, dropped: seq<set<int>>, now: int, cfg: Config)
    requires cfg.windowMs > 0 && |dropped| == |times| && InOrder(times)
    requires times != [] ==> times[|times| - 1] <= now
    ensures Agrees(Run(times, dropped, cfg), now, cfg)
  {
    if times != [] {
      var n := |times| - 1;
      RunAgrees(times[..n], dropped[..n], times[n], cfg);
      StepAgrees(Run(times[..n], dropped[..n], cfg), times[n], times[n], dropped[n], cfg);
      AgreesLater(Run(times, dropped, cfg), times[n], now, cfg);
    }
  }

  /** Whenever Redis drops expired counters, call i is decided by the numbers of admitted calls in
      its own window and the one before: a counter still read as previous is never lost. */
  lemma {:induction false} AllowedExactly(times: seq<int>, dropped: seq<set<int>>, i: nat, cfg: Config)
    requires cfg.windowMs > 0 && |dropped| == |times| && InOrder(times) && i < |times|
    ensures var r := Run(times[..i], dropped[..i], cfg);
            Take(r.counters, times[i], dropped[i], cfg).allowed <==>
            Estimate(r.admitted, times[i], cfg) < cfg.limit as real
  {
    RunAgrees(times[..i], dropped[..i], times[i], cfg);
    StepAgrees(Run(times[..i], dropped[..i], cfg), times[i], times[i], dropped[i], cfg);
  }

  lemma {:induction false} FractionRange(now: int, k: int, w: int)
    requires w > 0 && k == WindowOf(now, w)
    ensures 0.0 <= Fraction(now, k, w) < 1.0
  {
    WindowBounds(now, w, k);
    assert (k + 1) * w == k * w + w;
    DivRange((now - k * w) as real, w as real);
  }

  lemma {:induction false} DivRange(x: real, w: real)
    requires 0.0 <= x < w
    ensures 0.0 <= x / w < 1.0
  {
  }

  lemma {:induction false} FractionMonotone(a: int, b: int, k: int, w: int)
    requires w > 0 && a <= b
    ensures Fraction(a, k, w) <= Fraction(b, k, w)
  {
    DivMonotone((a - k * w) as real, (b - k * w) as real, w as real);
  }

  lemma {:induction false} DivMonotone(x: real, y: real, w: real)
    requires w > 0.0 && x <= y
    ensures x / w <= y / w
  {
  }

  /** Weighting never counts below the current window, and going further into the window or
      admitting one more call raises the estimate by at most one. */
  lemma {:induction false} WeightedFacts(p: nat, c: nat, f: real, g: real)
    requires 0.0 <= f <= g < 1.0
    ensures Weighted(p, c, f) >= c as real
    ensures Weighted(p, c + 1, g) <= Weighted(p, c, f) + 1.0
  {
    var x := p as real;
    Mul(x, 1.0 - f);
    Mul(x, g - f);
    assert x * (1.0 - g) == x * (1.0 - f) - x * (g - f);
  }

  lemma {:induction false} Mul(x: real, y: real)
    requires x >= 0.0 && y >= 0.0
    ensures x * y >= 0.0
  {
  }

  /** Each aligned window admits at most `limit`. */
  lemma {:induction false} WindowAdmitsAtMostLimit(times: seq<int>, dropped: seq<set<int>>, k: int, cfg: Config)
    requires cfg.windowMs > 0 && |dropped| == |times| && InOrder(times) && cfg.limit >= 0
    ensures InWindow(Run(times, dropped, cfg).admitted, k, cfg.windowMs) <= cfg.limit
  {
    if times != [] {
      var n, w := |times| - 1, cfg.windowMs;
      var r, now := Run(times[..n], dropped[..n], cfg), times[n];
      WindowAdmitsAtMostLimit(times[..n], dropped[..n], k, cfg);
      AllowedExactly(times, dropped, n, cfg);
      if Take(r.counters, now, dropped[n], cfg).allowed {
        AdmissionFitsWindow(r.admitted, now, k, cfg);
      }
    }
  }

  lemma {:induction false} AdmissionFitsWindow(admitted: seq<int>, now: int, k: int, cfg: Config)
    requires cfg.windowMs > 0 && Estimate(admitted, now, cfg) < cfg.limit as real
    requires InWindow(admitted, k, cfg.windowMs) <= cfg.limit
    ensures InWindow(admitted + [now], k, cfg.windowMs) <= cfg.limit
  {
    var w := cfg.windowMs;
    var j := WindowOf(now, w);
    InWindowSnoc(admitted, now, k, w);
    FractionRange(now, j, w);
    WeightedFacts(InWindow(admitted, j - 1, w), InWindow(admitted, j, w), Fraction(now, j, w), Fraction(now, j, w));
  }

  /** How many of the moments fall in t's aligned window and not after t. */
  function UpTo(times: seq<int>, t: int, windowMs: int): nat
    requires windowMs > 0
  {
    if times == [] then 0
    else
      var x := times[|times| - 1];
      UpTo(times[..|times| - 1], t, windowMs) +
      if WindowOf(x, windowMs) == WindowOf(t, windowMs) && x <= t then 1 else 0
  }

  lemma {:induction false} UpToSnoc(times: seq<int>, x: int, t: int, w: int)
    requires w > 0
    ensures UpTo(times + [x], t, w) ==
            UpTo(times, t, w) + if WindowOf(x, w) == WindowOf(t, w) && x <= t then 1 else 0
  {
    assert (times + [x])[..|times|] == times;
  }

  lemma {:induction false} UpToFacts(times: seq<int>, t: int, w: int)
    requires w > 0
    ensures UpTo(times, t, w) == CountIn(times, WindowOf(t, w) * w, t + 1)
    ensures (forall i :: 0 <= i < |times| ==> times[i] <= t) ==> UpTo(times, t, w) == InWindow(times, WindowOf(t, w), w)
    ensures (forall i :: 0 <= i < |times| ==> WindowOf(times[i], w) < WindowOf(t, w)) ==> UpTo(times, t, w) == 0
  {
    if times != [] {
      UpToFacts(times[..|times| - 1], t, w);
      WindowBounds(times[|times| - 1], w, WindowOf(t, w));
      WindowBounds(t, w, WindowOf(t, w));
    }
  }

  /** If anything was admitted up to t in t's own window, the estimate at t is below limit + 1. */
  ghost predicate RoomAt(admitted: seq<int>, t: int, cfg: Config)
    requires cfg.windowMs > 0
  {
    var k, w := WindowOf(t, cfg.windowMs), cfg.windowMs;
    UpTo(admitted, t, w) == 0 ||
    Weighted(InWindow(admitted, k - 1, w), UpTo(admitted, t, w), Fraction(t, k, w)) < cfg.limit as real + 1.0
  }

  lemma {:induction false} AdmissionKeepsRoom(admitted: seq<int>, now: int, t: int, cfg: Config)
    requires cfg.windowMs > 0 && RoomAt(admitted, t, cfg)
    requires forall i :: 0 <= i < |admitted| ==> admitted[i] <= now
    requires Estimate(admitted, now, cfg) < cfg.limit as real
    ensures RoomAt(admitted + [now], t, cfg)
  {
    var w := cfg.windowMs;
    var k, j := WindowOf(t, w), WindowOf(now, w);
    UpToSnoc(admitted, now, t, w);
    InWindowSnoc(admitted, now, k - 1, w);
    if j == k && now <= t {
      // So far nothing was admitted after now, so all of window k counts up to t.
      UpToFacts(admitted, t, w);
      FractionRange(now, k, w);
      FractionRange(t, k, w);
      FractionMonotone(now, t, k, w);
      WeightedFacts(InWindow(admitted, k - 1, w), InWindow(admitted, k, w), Fraction(now, k, w), Fraction(t, k, w));
    } else if j == k - 1 {
      // Nothing can have been admitted in window k yet.
      forall i | 0 <= i < |admitted|
        ensures WindowOf(admitted[i], w) < k
      {
        WindowsInOrder(admitted[i], now, w);
      }
      UpToFacts(admitted, t, w);
    }
  }

  lemma {:induction false} RunLeavesRoom(times: seq<int>, dropped: seq<set<int>>, t: int, cfg: Config)
    requires cfg.windowMs > 0 && |dropped| == |times| && InOrder(times)
    ensures RoomAt(Run(times, dropped, cfg).admitted, t, cfg)
  {
    if times != [] {
      var n := |times| - 1;
      var r := Run(times[..n], dropped[..n], cfg);
      RunLeavesRoom(times[..n], dropped[..n], t, cfg);
      AllowedExactly(times, dropped, n, cfg);
      RunAgrees(times[..n], dropped[..n], times[n], cfg);
      if Take(r.counters, times[n], dropped[n], cfg).allowed {
        AdmissionKeepsRoom(r.admitted, times[n], t, cfg);
      }
    }
  }

  /** limit * (1 + f) + 1, for an interval ending at t, f into its aligned window. */
  ghost function Ceiling(t: int, cfg: Config): real
    requires cfg.windowMs > 0
  {
    CeilingAt(cfg.limit as real, Fraction(t, WindowOf(t, cfg.windowMs), cfg.windowMs))
  }

  ghost function CeilingAt(limit: real, f: real): real { limit * (1.0 + f) + 1.0 }

  lemma {:induction false} BoundArithmetic(p: nat, q: nat, f: real, limit: int)
    requires 0.0 <= f < 1.0 && p <= limit && (q == 0 || Weighted(p, q, f) < limit as real + 1.0)
    ensures (p + q) as real < CeilingAt(limit as real, f)
  {
    var x, l := p as real, limit as real;
    Mul(l - x, f);
    Mul(l, f);
    assert (l - x) * f == l * f - x * f;
    assert x * (1.0 - f) == x - x * f;
    assert l * (1.0 + f) == l + l * f;
  }

  lemma {:induction false} IntervalSplits(admitted: seq<int>, t: int, w: int)
    requires w > 0
    ensures CountIn(admitted, t - w + 1, t + 1) <= InWindow(admitted, WindowOf(t, w) - 1, w) + UpTo(admitted, t, w)
  {
    var k := WindowOf(t, w);
    WindowBounds(t, w, k);
    UpToFacts(admitted, t, w);
    InWindowIsCountIn(admitted, k - 1, w);
    assert (k - 1 + 1) * w == k * w && (k - 1) * w == k * w - w && (k + 1) * w == k * w + w;
    CountSplit(admitted, (k - 1) * w, t - w + 1, k * w);
    CountSplit(admitted, t - w + 1, k * w, t + 1);
  }

  lemma {:induction false} RoomBounds(admitted: seq<int>, t: int, cfg: Config)
    requires cfg.windowMs > 0 && RoomAt(admitted, t, cfg)
    requires InWindow(admitted, WindowOf(t, cfg.windowMs) - 1, cfg.windowMs) <= cfg.limit
    ensures CountIn(admitted, t - cfg.windowMs + 1, t + 1) as real < Ceiling(t, cfg)
  {
    var w := cfg.windowMs;
    var k := WindowOf(t, w);
    var p, q, n := InWindow(admitted, k - 1, w), UpTo(admitted, t, w), CountIn(admitted, t - w + 1, t + 1);
    assert n <= p + q by { IntervalSplits(admitted, t, w); }
    FractionRange(t, k, w);
    BoundArithmetic(p, q, Fraction(t, k, w), cfg.limit);
    assert n as real <= (p + q) as real;
  }

  /** Any interval of length windowMs admits fewer than limit * (1 + f) + 1 calls, where f is how far
      into its aligned window the interval ends. */
  lemma {:induction false} SlidingBound(times: seq<int>, dropped: seq<set<int>>, t: int, cfg: Config)
    requires cfg.windowMs > 0 && |dropped| == |times| && InOrder(times) && cfg.limit >= 0
    ensures CountIn(Run(times, dropped, cfg).admitted, t - cfg.windowMs + 1, t + 1) as real < Ceiling(t, cfg)
  {
    RunLeavesRoom(times, dropped, t, cfg);
    WindowAdmitsAtMostLimit(times, dropped, WindowOf(t, cfg.windowMs) - 1, cfg);
    RoomBounds(Run(times, dropped, cfg).admitted, t, cfg);
  }

  /** The next call after a run, whenever it comes. */
  lemma {:induction false} NextAllowed(times: seq<int>, dropped: seq<set<int>>, later: int, drop: set<int>, cfg: Config)
    requires cfg.windowMs > 0 && |dropped| == |times| && InOrder(times)
    requires times != [] ==> times[|times| - 1] <= later
    ensures var r := Run(times, dropped, cfg);
            Take(r.counters, later, drop, cfg).allowed <==> Estimate(r.admitted, later, cfg) < cfg.limit as real
  {
    RunAgrees(times, dropped, later, cfg);
    StepAgrees(Run(times, dropped, cfg), later, later, drop, cfg);
  }

  lemma {:induction false} LaterWindowIsEmpty(admitted: seq<int>, last: int, k: int, w: int)
    requires w > 0 && WindowOf(last, w) < k && forall i :: 0 <= i < |admitted| ==> admitted[i] <= last
    ensures InWindow(admitted, k, w) == 0
  {
    forall i | 0 <= i < |admitted|
      ensures WindowOf(admitted[i], w) != k
    {
      WindowsInOrder(admitted[i], last, w);
    }
    InWindowNone(admitted, k, w);
  }

  lemma {:induction false} FractionStarts(now: int, k: int, w: int)
    requires w > 0
    ensures now == k * w ==> Fraction(now, k, w) == 0.0
    ensures now > k * w ==> Fraction(now, k, w) > 0.0
  {
    DivPositive((now - k * w) as real, w as real);
  }

  lemma {:induction false} DivPositive(x: real, w: real)
    requires w > 0.0
    ensures x == 0.0 ==> x / w == 0.0
    ensures x > 0.0 ==> x / w > 0.0
  {
  }

  lemma {:induction false} Fading(p: nat, f: real, limit: int)
    requires p <= limit && limit >= 1 && 0.0 <= f < 1.0
    ensures Weighted(p, 0, f) < limit as real <==> f > 0.0 || p < limit
  {
    var x := p as real;
    assert x * (1.0 - f) == x - x * f;
    if p > 0 && f > 0.0 {
      MulPositive(x, f);
    } else if p > 0 {
      assert x * f == 0.0;
    } else {
      assert x * f == 0.0;
    }
    Mul(x, f);
  }

  lemma {:induction false} MulPositive(x: real, y: real)
    requires x > 0.0 && y > 0.0
    ensures x * y > 0.0
  {
  }

  /** With no call in between, the next call is allowed at every moment after resetAt. At resetAt itself
      it is allowed iff the window just ended admitted fewer than `limit`. */
  lemma {:induction false} ResetAtIsOneShort(
    times: seq<int>, dropped: seq<set<int>>, later: int, drop: set<int>, cfg: Config)
    requires cfg.windowMs > 0 && cfg.limit >= 1 && |dropped| == |times| && InOrder(times)
    requires times != [] && ResetAt(times[|times| - 1], cfg) <= later
    ensures var r, last := Run(times, dropped, cfg), times[|times| - 1];
            Take(r.counters, later, drop, cfg).allowed <==>
            later > ResetAt(last, cfg) || InWindow(r.admitted, WindowOf(last, cfg.windowMs), cfg.windowMs) < cfg.limit
  {
    var r, last, w := Run(times, dropped, cfg), times[|times| - 1], cfg.windowMs;
    var k, k' := WindowOf(last, w), WindowOf(later, w);
    WindowBounds(last, w, k);
    WindowBounds(later, w, k + 1);
    NextAllowed(times, dropped, later, drop, cfg);
    RunAgrees(times, dropped, last, cfg);
    LaterWindowIsEmpty(r.admitted, last, k', w);
    FractionRange(later, k', w);
    WindowAdmitsAtMostLimit(times, dropped, k' - 1, cfg);
    Fading(InWindow(r.admitted, k' - 1, w), Fraction(later, k', w), cfg.limit);
    FractionStarts(later, k', w);
    if k' > k + 1 {
      LaterWindowIsEmpty(r.admitted, last, k' - 1, w);
      WindowBounds(later, w, k + 2);
    }
  }

  lemma {:induction false} FirstIsAdmitted(drop: set<int>)
    ensures Run([0], [drop], Config(1, 1000)).admitted == [0]
  {
    var cfg := Config(1, 1000);
    assert [0][..0] == [] && [drop][..0] == [];
    NextAllowed([], [], 0, drop, cfg);
    FractionStarts(0, 0, 1000);
  }

  lemma {:induction false} SecondIsDenied(first: set<int>, second: set<int>)
    ensures !Take(Run([0], [first], Config(1, 1000)).counters, 500, second, Config(1, 1000)).allowed
  {
    FirstIsAdmitted(first);
    NextAllowed([0], [first], 500, second, Config(1, 1000));
    FractionRange(500, 0, 1000);
    OneInFirstWindow();
    WeightedFacts(InWindow([0], -1, 1000), 1, Fraction(500, 0, 1000), Fraction(500, 0, 1000));
  }

  lemma {:induction false} OneInFirstWindow()
    ensures InWindow([0], 0, 1000) == 1
  {
    assert [0][..0] == [];
  }

  /** Such a run: one call admitted, the next denied and told to come back at 1000, and denied there. */
  lemma {:induction false} ResetAtFailsInARun(first: set<int>, second: set<int>, third: set<int>)
    ensures var cfg := Config(1, 1000);
            && !Take(Run([0], [first], cfg).counters, 500, second, cfg).allowed && ResetAt(500, cfg) == 1000
            && !Take(Run([0, 500], [first, second], cfg).counters, 1000, third, cfg).allowed
  {
    var cfg := Config(1, 1000);
    FirstIsAdmitted(first);
    SecondIsDenied(first, second);
    OneInFirstWindow();
    assert [0, 500][..1] == [0] && [first, second][..1] == [first];
    assert Run([0, 500], [first, second], cfg).admitted == [0];
    ResetAtIsOneShort([0, 500], [first, second], 1000, third, cfg);
  }

  lemma {:induction false} ScaledWeight(p: real, c: real, x: real, w: real, limit: real)
    requires w > 0.0
    ensures p * (1.0 - x / w) + c < limit <==> p * (w - x) + c * w < limit * w
  {
    var f := x / w;
    assert f * w == x;
    Spread(p, f, w);
    var lhs := p * (1.0 - f) + c;
    assert lhs * w == p * (w - x) + c * w;
    Compare(lhs, limit, w);
  }

  lemma {:induction false} Spread(p: real, f: real, w: real)
    ensures p * (1.0 - f) * w == p * (w - f * w)
  {
  }

  lemma {:induction false} Compare(a: real, b: real, w: real)
    requires w > 0.0
    ensures a < b <==> a * w < b * w
  {
    if a < b {
      MulPositive(b - a, w);
    } else {
      Mul(a - b, w);
    }
  }

  /** In whole numbers, x being the milliseconds of the window that are gone. */
  predicate HasRoom(p: int, c: int, x: int, cfg: Config) {
    p * (cfg.windowMs - x) + c * cfg.windowMs < cfg.limit * cfg.windowMs
  }

  lemma {:induction false} EstimateInIntegers(p: nat, c: nat, now: int, k: int, cfg: Config)
    requires cfg.windowMs > 0
    ensures Weighted(p, c, Fraction(now, k, cfg.windowMs)) < cfg.limit as real <==>
            HasRoom(p, c, now - k * cfg.windowMs, cfg)
  {
    var x, w := now - k * cfg.windowMs, cfg.windowMs;
    ScaledWeight(p as real, c as real, x as real, w as real, cfg.limit as real);
    InReals(p, c, x, w, cfg.limit);
  }

  /** With p calls admitted in the window before, c in this one, and x milliseconds of it gone, the next
      call is admitted iff p * (windowMs - x) + c * windowMs < limit * windowMs. */
  lemma {:induction false} AdmittedIff(times: seq<int>, dropped: seq<set<int>>, later: int, drop: set<int>, cfg: Config)
    requires cfg.windowMs > 0 && |dropped| == |times| && InOrder(times)
    requires times != [] ==> times[|times| - 1] <= later
    ensures var r, k := Run(times, dropped, cfg), WindowOf(later, cfg.windowMs);
            var p, c := InWindow(r.admitted, k - 1, cfg.windowMs), InWindow(r.admitted, k, cfg.windowMs);
            Take(r.counters, later, drop, cfg).allowed <==> HasRoom(p, c, later - k * cfg.windowMs, cfg)
  {
    var r, k := Run(times, dropped, cfg), WindowOf(later, cfg.windowMs);
    NextAllowed(times, dropped, later, drop, cfg);
    EstimateInIntegers(InWindow(r.admitted, k - 1, cfg.windowMs), InWindow(r.admitted, k, cfg.windowMs), later, k, cfg);
  }

  lemma {:induction false} InReals(p: int, c: int, x: int, w: int, limit: int)
    ensures p * (w - x) + c * w < limit * w <==>
            p as real * (w as real - x as real) + c as real * w as real < limit as real * w as real
  {
    ProductInReals(p, w - x);
    ProductInReals(c, w);
    ProductInReals(limit, w);
  }

  lemma {:induction false} ProductInReals(a: int, b: int)
    ensures (a * b) as real == a as real * b as real
  {
  }

  /** n calls are reported as remaining iff n more would still be under the limit, and n + 1 would not. */
  lemma {:induction false} RemainingIsWhole(weighted: real, n: int, cfg: Config)
    requires n >= 1
    ensures RemainingOf(weighted, cfg) == n <==>
            weighted + n as real <= cfg.limit as real < weighted + n as real + 1.0
  {
  }
}
