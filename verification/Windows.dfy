/** Counting moments in half-open intervals, and the clock-aligned windows of the limiters. */
module Windows {
  /** Clock readings, in milliseconds, that do not go backwards. */
  ghost predicate InOrder(times: seq<int>) {
    forall i, j :: 0 <= i < j < |times| ==> times[i] <= times[j]
  }

  /** How many of the moments lie in [lo, hi). */
  function CountIn(times: seq<int>, lo: int, hi: int): nat {
    if times == [] then 0
    else CountIn(times[..|times| - 1], lo, hi) +
         if lo <= times[|times| - 1] < hi then 1 else 0
  }

  lemma {:induction false} CountSnoc(times: seq<int>, t: int, lo: int, hi: int)
    ensures CountIn(times + [t], lo, hi) == CountIn(times, lo, hi) + if lo <= t < hi then 1 else 0
  {
    assert (times + [t])[..|times|] == times;
  }

  lemma {:induction false} CountSplit(times: seq<int>, lo: int, mid: int, hi: int)
    requires lo <= mid <= hi
    ensures CountIn(times, lo, hi) == CountIn(times, lo, mid) + CountIn(times, mid, hi)
  {
    if times != [] {
      CountSplit(times[..|times| - 1], lo, mid, hi);
    }
  }

  lemma {:induction false} CountNone(times: seq<int>, lo: int, hi: int)
    requires forall i :: 0 <= i < |times| ==> times[i] < lo || hi <= times[i]
    ensures CountIn(times, lo, hi) == 0
  {
    if times != [] {
      CountNone(times[..|times| - 1], lo, hi);
    }
  }

  /** The index of the aligned window that holds `now`; Math.floor(now / windowMs) times windowMs
      is where it starts. */
  function WindowOf(now: int, windowMs: int): int
    requires windowMs > 0
  {
    now / windowMs
  }

  lemma {:induction false} WindowBounds(now: int, windowMs: int, k: int)
    requires windowMs > 0
    ensures WindowOf(now, windowMs) == k <==> k * windowMs <= now < (k + 1) * windowMs
    ensures WindowOf(now, windowMs) < k <==> now < k * windowMs
  {
    var w := WindowOf(now, windowMs);
    assert now == w * windowMs + now % windowMs;
    if w < k {
      MulLe(w + 1, k, windowMs);
    } else if w > k {
      MulLe(k + 1, w, windowMs);
    }
  }

  lemma {:induction false} WindowsInOrder(a: int, b: int, windowMs: int)
    requires windowMs > 0 && a <= b
    ensures WindowOf(a, windowMs) <= WindowOf(b, windowMs)
  {
    WindowBounds(a, windowMs, WindowOf(b, windowMs) + 1);
    WindowBounds(b, windowMs, WindowOf(b, windowMs));
  }

  lemma {:induction false} MulLe(a: int, b: int, w: int)
    requires a <= b && w >= 0
    ensures a * w <= b * w
  {
  }
}
