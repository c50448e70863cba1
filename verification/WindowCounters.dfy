/** One Redis counter per clock-aligned window, with an expiry set by its first INCR. Both counting
    limiters are built on this, with a time to live of one or two windows. */
module WindowCounters {
  import opened Windows

  datatype Counter = Counter(count: nat, expiresAt: int)

  /** Counters by window index. Redis drops a counter at some moment of its choice once it has
      expired: `dropped` holds the ones it has chosen to drop by now. */
  type Counters = map<int, Counter>

  predicate Present(m: Counters, k: int, now: int, dropped: set<int>) {
    k in m && !(k in dropped && now >= m[k].expiresAt)
  }

  /** GET */
  function Read(m: Counters, k: int, now: int, dropped: set<int>): nat {
    if Present(m, k, now, dropped) then m[k].count else 0
  }

  /** INCR, and PEXPIRE when that made it 1. */
  function Incr(m: Counters, k: int, now: int, dropped: set<int>, ttlMs: int): Counters {
    m[k := if Read(m, k, now, dropped) == 0 then Counter(1, now + ttlMs)
           else Counter(m[k].count + 1, m[k].expiresAt)]
  }

  /** How many of the moments fall in window k. */
  function InWindow(times: seq<int>, k: int, windowMs: int): nat
    requires windowMs > 0
  {
    if times == [] then 0
    else InWindow(times[..|times| - 1], k, windowMs) +
         if WindowOf(times[|times| - 1], windowMs) == k then 1 else 0
  }

  lemma {:induction false} InWindowSnoc(times: seq<int>, t: int, k: int, windowMs: int)
    requires windowMs > 0
    ensures InWindow(times + [t], k, windowMs) ==
            InWindow(times, k, windowMs) + if WindowOf(t, windowMs) == k then 1 else 0
  {
    assert (times + [t])[..|times|] == times;
  }

  lemma {:induction false} InWindowIsCountIn(times: seq<int>, k: int, windowMs: int)
    requires windowMs > 0
    ensures InWindow(times, k, windowMs) == CountIn(times, k * windowMs, (k + 1) * windowMs)
  {
    if times != [] {
      InWindowIsCountIn(times[..|times| - 1], k, windowMs);
      WindowBounds(times[|times| - 1], windowMs, k);
    }
  }

  lemma {:induction false} InWindowNone(times: seq<int>, k: int, windowMs: int)
    requires windowMs > 0 && forall i :: 0 <= i < |times| ==> WindowOf(times[i], windowMs) != k
    ensures InWindow(times, k, windowMs) == 0
  {
    if times != [] {
      InWindowNone(times[..|times| - 1], k, windowMs);
    }
  }

  function CountOf(m: Counters, k: int): nat { if k in m then m[k].count else 0 }

  /** From window `from` on the counters hold the number of moments, are never zero when present,
      and do not expire before `span` windows have passed since their own began. */
  ghost predicate Faithful(m: Counters, times: seq<int>, from: int, span: int, windowMs: int)
    requires windowMs > 0
  {
    forall k :: from <= k ==>
      && CountOf(m, k) == InWindow(times, k, windowMs)
      && (k in m ==> m[k].count >= 1 && m[k].expiresAt >= (k + span) * windowMs)
  }

  /** A counter is still there for as long as anybody asks for it: expiry cannot be observed. */
  lemma {:induction false} ReadIsExact(
    m: Counters, times: seq<int>, from: int, span: int, k: int, now: int, dropped: set<int>, windowMs: int)
    requires windowMs > 0 && Faithful(m, times, from, span, windowMs)
    requires from <= k && WindowOf(now, windowMs) < k + span
    ensures Read(m, k, now, dropped) == InWindow(times, k, windowMs)
    ensures k in m ==> Present(m, k, now, dropped)
  {
    WindowBounds(now, windowMs, k + span);
    assert CountOf(m, k) == InWindow(times, k, windowMs);
  }

  lemma {:induction false} IncrStaysFaithful(
    m: Counters, times: seq<int>, from: int, span: int, now: int, dropped: set<int>, windowMs: int)
    requires windowMs > 0 && span >= 1 && Faithful(m, times, from, span, windowMs)
    requires from <= WindowOf(now, windowMs)
    ensures var m' := Incr(m, WindowOf(now, windowMs), now, dropped, span * windowMs);
            Faithful(m', times + [now], from, span, windowMs)
  {
    var w := WindowOf(now, windowMs);
    var m' := Incr(m, w, now, dropped, span * windowMs);
    ReadIsExact(m, times, from, span, w, now, dropped, windowMs);
    WindowBounds(now, windowMs, w);
    assert (w + span) * windowMs == w * windowMs + span * windowMs;
    forall k | from <= k
      ensures && CountOf(m', k) == InWindow(times + [now], k, windowMs)
              && (k in m' ==> m'[k].count >= 1 && m'[k].expiresAt >= (k + span) * windowMs)
    {
      InWindowSnoc(times, now, k, windowMs);
      assert CountOf(m, k) == InWindow(times, k, windowMs);
    }
  }
}
