/** The token bucket limiter: refill lazily, spend atomically, let idle buckets expire. */
module TokenBucket {
  import opened Options

  datatype Config = Config(capacity: real, refillPerSecond: real) {
    ghost predicate Valid() { capacity >= 0.0 && refillPerSecond > 0.0 }
  }

  datatype Bucket = Bucket(tokens: real, lastRefill: real)

  function Min(a: real, b: real): real { if a <= b then a else b }
  function Max(a: real, b: real): real { if a >= b then a else b }

  /** Tokens accrued between two moments, in milliseconds. */
  function Accrued(from: real, to: real, cfg: Config): real {
    (to - from) / 1000.0 * cfg.refillPerSecond
  }

  function Refilled(tokens: real, last: real, now: real, cfg: Config): real {
    Min(cfg.capacity, tokens + Max(0.0, (now - last) / 1000.0) * cfg.refillPerSecond)
  }

  /** What the bucket holds at `now`, before spending; a missing bucket starts full. */
  function Available(b: Option<Bucket>, now: real, cfg: Config): real {
    if b.None? then Refilled(cfg.capacity, now, now, cfg)
    else Refilled(b.value.tokens, b.value.lastRefill, now, cfg)
  }

  datatype Taken = Taken(bucket: Bucket, allowed: bool)

  /** The script, without the expiry it sets. */
  function Take(b: Option<Bucket>, now: real, requested: real, cfg: Config): Taken {
    var tokens := Available(b, now, cfg);
    if tokens >= requested then Taken(Bucket(tokens - requested, now), true)
    else Taken(Bucket(tokens, now), false)
  }

  function Ceil(x: real): int { -(-x).Floor }

  function TtlMs(cfg: Config): real
    requires cfg.refillPerSecond > 0.0
  {
    1000.0 * (Ceil(cfg.capacity / cfg.refillPerSecond) + 60) as real
  }

  /** When the same request can succeed, as the caller is told. */
  function ResetAt(t: Taken, requested: real, cfg: Config): real
    requires cfg.refillPerSecond > 0.0
  {
    t.bucket.lastRefill + Max(0.0, requested - t.bucket.tokens) / cfg.refillPerSecond * 1000.0
  }

  /** The bucket's Redis hash, updated in place. */
  class BucketKey {
    var tokens: Option<real>
    var lastRefill: real
    var expiresAt: real

    function Value(): Option<Bucket>
      reads this
    {
      if tokens.None? then None else Some(Bucket(tokens.value, lastRefill))
    }

    constructor ()
      ensures Value() == None
    {
      tokens, lastRefill, expiresAt := None, 0.0, 0.0;
    }

    method TokenBucket(now: real, requested: real, cfg: Config)
      returns (allowed: bool, remaining: int, resetAt: real)
      requires cfg.Valid()
      modifies this
      ensures var t := Take(old(Value()), now, requested, cfg);
              && Value() == Some(t.bucket) && allowed == t.allowed
              && remaining == t.bucket.tokens.Floor && resetAt == ResetAt(t, requested, cfg)
      ensures expiresAt == now + TtlMs(cfg)
    {
      var have, last := tokens.GetOr(cfg.capacity), lastRefill;
      if tokens.None? {
        last := now;
      }
      var elapsedSeconds := Max(0.0, (now - last) / 1000.0);
      have := Min(cfg.capacity, have + elapsedSeconds * cfg.refillPerSecond);
      assert have == Available(old(Value()), now, cfg);
      allowed := have >= requested;
      if allowed {
        have := have - requested;
      }
      tokens, lastRefill := Some(have), now;
      expiresAt := now + TtlMs(cfg);
      var deficit := Max(0.0, requested - have);
      resetAt := now + deficit / cfg.refillPerSecond * 1000.0;
      remaining := have.Floor;
    }
  }

  // ---------------------------------------------------------------------------------------
  // The rate over arbitrary runs
  // ---------------------------------------------------------------------------------------

  datatype Request = Request(now: real, requested: real)

  /** Clock readings do not go backwards, and costs are not negative. */
  ghost predicate Ordered(calls: seq<Request>, since: real) {
    && (forall i :: 0 <= i < |calls| ==> since <= calls[i].now && calls[i].requested >= 0.0)
    && (forall i, j :: 0 <= i < j < |calls| ==> calls[i].now <= calls[j].now)
  }

  /** Tokens granted by the calls made in [t1, t2], the run starting from bucket b. */
  function Granted(b: Option<Bucket>, calls: seq<Request>, t1: real, t2: real, cfg: Config): real
    decreases |calls|
  {
    if calls == [] then 0.0
    else
      var t := Take(b, calls[0].now, calls[0].requested, cfg);
      (if t.allowed && t1 <= calls[0].now <= t2 then calls[0].requested else 0.0)
        + Granted(Some(t.bucket), calls[1..], t1, t2, cfg)
  }

  ghost predicate Sound(b: Option<Bucket>, cfg: Config) {
    b.Some? ==> 0.0 <= b.value.tokens <= cfg.capacity
  }

  ghost predicate NotAfter(b: Option<Bucket>, t: real) { b.Some? ==> b.value.lastRefill <= t }

  lemma AccruedFacts(a: real, b: real, c: real, cfg: Config)
    requires cfg.Valid() && a <= b <= c
    ensures 0.0 <= Accrued(a, b, cfg) && Accrued(a, c, cfg) == Accrued(a, b, cfg) + Accrued(b, c, cfg)
  {
    var r := cfg.refillPerSecond;
    assert (c - a) / 1000.0 == (b - a) / 1000.0 + (c - b) / 1000.0;
    Distribute((b - a) / 1000.0, (c - b) / 1000.0, r);
    Product((b - a) / 1000.0, r);
  }

  lemma Distribute(x: real, y: real, r: real)
    ensures (x + y) * r == x * r + y * r
  {
  }

  lemma Product(x: real, r: real)
    requires x >= 0.0 && r >= 0.0
    ensures x * r >= 0.0
  {
  }

  lemma AvailableIsCappedAccrual(b: Option<Bucket>, now: real, cfg: Config)
    requires cfg.Valid() && Sound(b, cfg) && NotAfter(b, now)
    ensures Available(b, now, cfg) ==
            if b.None? then cfg.capacity else Min(cfg.capacity, b.value.tokens + Accrued(b.value.lastRefill, now, cfg))
    ensures 0.0 <= Available(b, now, cfg) <= cfg.capacity
  {
    if b.Some? {
      AccruedFacts(b.value.lastRefill, now, now, cfg);
    }
  }

  /** Whatever is asked, the bucket stays between empty and full. */
  lemma TakeStaysInRange(b: Option<Bucket>, now: real, requested: real, cfg: Config)
    requires cfg.Valid() && Sound(b, cfg) && NotAfter(b, now) && requested >= 0.0
    ensures Sound(Some(Take(b, now, requested, cfg).bucket), cfg)
  {
    AvailableIsCappedAccrual(b, now, cfg);
  }

  lemma AvailableGrowth(b: Option<Bucket>, t0: real, t: real, cfg: Config)
    requires cfg.Valid() && Sound(b, cfg) && NotAfter(b, t0) && t0 <= t
    ensures Available(b, t, cfg) <= Available(b, t0, cfg) + Accrued(t0, t, cfg)
  {
    AvailableIsCappedAccrual(b, t0, cfg);
    AvailableIsCappedAccrual(b, t, cfg);
    AccruedFacts(t0, t, t, cfg);
    if b.Some? {
      AccruedFacts(b.value.lastRefill, t0, t, cfg);
    }
  }

  lemma {:induction false} NothingAfter(b: Option<Bucket>, calls: seq<Request>, t1: real, t2: real, cfg: Config)
    requires forall i :: 0 <= i < |calls| ==> calls[i].now > t2
    ensures Granted(b, calls, t1, t2, cfg) == 0.0
    decreases |calls|
  {
    if calls != [] {
      NothingAfter(Some(Take(b, calls[0].now, calls[0].requested, cfg).bucket), calls[1..], t1, t2, cfg);
    }
  }

  lemma {:induction false} GrantedFrom(
    b: Option<Bucket>, calls: seq<Request>, t0: real, t1: real, t2: real, cfg: Config)
    requires cfg.Valid() && Sound(b, cfg) && NotAfter(b, t0) && t1 <= t0 <= t2 && Ordered(calls, t0)
    ensures Granted(b, calls, t1, t2, cfg) <= Available(b, t0, cfg) + Accrued(t0, t2, cfg)
    decreases |calls|
  {
    AvailableIsCappedAccrual(b, t0, cfg);
    AccruedFacts(t0, t2, t2, cfg);
    if calls != [] {
      var now := calls[0].now;
      if now > t2 {
        NothingAfter(b, calls, t1, t2, cfg);
      } else {
        var t := Take(b, now, calls[0].requested, cfg);
        TakeStaysInRange(b, now, calls[0].requested, cfg);
        GrantedFrom(Some(t.bucket), calls[1..], now, t1, t2, cfg);
        AvailableGrowth(b, t0, now, cfg);
        AvailableIsCappedAccrual(Some(t.bucket), now, cfg);
        AccruedFacts(now, now, now, cfg);
        AccruedFacts(t0, now, t2, cfg);
      }
    }
  }

  /** In any run with a clock that does not go backwards, the tokens granted in any interval
      [t1, t2] are at most one full bucket plus what accrues in the interval. */
  lemma {:induction false} RateIsBounded(
    b: Option<Bucket>, calls: seq<Request>, since: real, t1: real, t2: real, cfg: Config)
    requires cfg.Valid() && Sound(b, cfg) && NotAfter(b, since) && Ordered(calls, since) && t1 <= t2
    ensures Granted(b, calls, t1, t2, cfg) <= cfg.capacity + Accrued(t1, t2, cfg)
    decreases |calls|
  {
    AccruedFacts(t1, t2, t2, cfg);
    if calls != [] {
      var now := calls[0].now;
      if now < t1 {
        TakeStaysInRange(b, now, calls[0].requested, cfg);
        RateIsBounded(Some(Take(b, now, calls[0].requested, cfg).bucket), calls[1..], now, t1, t2, cfg);
      } else if now > t2 {
        NothingAfter(b, calls, t1, t2, cfg);
      } else {
        GrantedFrom(b, calls, now, t1, t2, cfg);
        AvailableIsCappedAccrual(b, now, cfg);
        AccruedFacts(t1, now, t2, cfg);
      }
    }
  }

  // ---------------------------------------------------------------------------------------
  // Expiry cannot be observed
  // ---------------------------------------------------------------------------------------

  /** The bucket with the moment from which Redis may have dropped it. */
  datatype Keyed = Keyed(bucket: Bucket, expiresAt: real)

  /** The script against a key that Redis drops at some moment of its choice once it has expired:
      `gone` is that choice. */
  function TakeKeyed(k: Option<Keyed>, now: real, requested: real, gone: bool, cfg: Config): (Keyed, bool)
    requires cfg.refillPerSecond > 0.0
  {
    var b := if k.None? || (gone && now >= k.value.expiresAt) then None else Some(k.value.bucket);
    var t := Take(b, now, requested, cfg);
    (Keyed(t.bucket, now + TtlMs(cfg)), t.allowed)
  }

  /** Everything each call finds out and leaves behind: its decision and the bucket after it, which
      determine the remaining tokens and resetAt it reports. */
  function AnswersKeyed(k: Option<Keyed>, calls: seq<Request>, gone: seq<bool>, cfg: Config): seq<Taken>
    requires cfg.refillPerSecond > 0.0 && |gone| == |calls|
    decreases |calls|
  {
    if calls == [] then []
    else
      var (k', allowed) := TakeKeyed(k, calls[0].now, calls[0].requested, gone[0], cfg);
      [Taken(k'.bucket, allowed)] + AnswersKeyed(Some(k'), calls[1..], gone[1..], cfg)
  }

  function Answers(b: Option<Bucket>, calls: seq<Request>, cfg: Config): seq<Taken>
    decreases |calls|
  {
    if calls == [] then []
    else
      var t := Take(b, calls[0].now, calls[0].requested, cfg);
      [t] + Answers(Some(t.bucket), calls[1..], cfg)
  }

  lemma IdleBucketIsFull(b: Bucket, now: real, cfg: Config)
    requires cfg.Valid() && 0.0 <= b.tokens <= cfg.capacity && now >= b.lastRefill + TtlMs(cfg)
    ensures b.lastRefill <= now
    ensures Available(Some(b), now, cfg) == cfg.capacity
  {
    var q, e := cfg.capacity / cfg.refillPerSecond, (now - b.lastRefill) / 1000.0;
    QuotientFacts(cfg.capacity, cfg.refillPerSecond);
    assert e >= q && e >= 0.0;
    Scale(q, e, cfg.refillPerSecond);
    assert Accrued(b.lastRefill, now, cfg) >= cfg.capacity;
    assert b.lastRefill <= now;
    AvailableIsCappedAccrual(Some(b), now, cfg);
  }

  lemma QuotientFacts(x: real, r: real)
    requires x >= 0.0 && r > 0.0
    ensures x / r >= 0.0 && x / r * r == x && Ceil(x / r) as real >= x / r
  {
  }

  lemma Scale(x: real, y: real, r: real)
    requires x <= y && r >= 0.0
    ensures x * r <= y * r
  {
  }

  /** Whenever Redis drops expired buckets, every answer, down to the tokens left, is the one of a
      bucket that never expires: an expired bucket would have been full. */
  lemma {:induction false} ExpiryIsInvisible(
    k: Option<Keyed>, calls: seq<Request>, gone: seq<bool>, since: real, cfg: Config)
    requires cfg.Valid() && |gone| == |calls| && Ordered(calls, since)
    requires k.Some? ==>
               && 0.0 <= k.value.bucket.tokens <= cfg.capacity && k.value.bucket.lastRefill <= since
               && k.value.expiresAt == k.value.bucket.lastRefill + TtlMs(cfg)
    ensures AnswersKeyed(k, calls, gone, cfg)
         == Answers(if k.None? then None else Some(k.value.bucket), calls, cfg)
    decreases |calls|
  {
    if calls != [] {
      var now, requested := calls[0].now, calls[0].requested;
      var b := if k.None? then None else Some(k.value.bucket);
      if k.Some? && now >= k.value.expiresAt {
        IdleBucketIsFull(k.value.bucket, now, cfg);
        AvailableIsCappedAccrual(None, now, cfg);
      }
      TakeStaysInRange(b, now, requested, cfg);
      var k' := TakeKeyed(k, now, requested, gone[0], cfg).0;
      assert k'.bucket == Take(b, now, requested, cfg).bucket;
      ExpiryIsInvisible(Some(k'), calls[1..], gone[1..], now, cfg);
    }
  }

  // ---------------------------------------------------------------------------------------
  // resetAt
  // ---------------------------------------------------------------------------------------

  /** With no call in between, the same request is denied at every moment before resetAt and
      allowed from then on, provided it fits the bucket at all; otherwise it is never allowed,
      although a finite resetAt is reported. */
  lemma ResetAtIsExact(b: Option<Bucket>, now: real, requested: real, later: real, cfg: Config)
    requires cfg.Valid() && Sound(b, cfg) && NotAfter(b, now) && requested >= 0.0 && now <= later
    ensures var t := Take(b, now, requested, cfg);
            Take(Some(t.bucket), later, requested, cfg).allowed <==>
            requested <= cfg.capacity && later >= ResetAt(t, requested, cfg)
  {
    var t := Take(b, now, requested, cfg);
    TakeStaysInRange(b, now, requested, cfg);
    AvailableIsCappedAccrual(Some(t.bucket), later, cfg);
    var deficit := Max(0.0, requested - t.bucket.tokens);
    TimeToAccrue(later - now, deficit, cfg.refillPerSecond);
    AccruedFacts(now, later, later, cfg);
  }

  lemma TimeToAccrue(elapsed: real, deficit: real, r: real)
    requires r > 0.0
    ensures elapsed / 1000.0 * r >= deficit <==> elapsed >= deficit / r * 1000.0
  {
    var q, e := deficit / r, elapsed / 1000.0;
    assert q * r == deficit;
    if e >= q {
      Scale(q, e, r);
    } else {
      assert (q - e) * r > 0.0;
      Distribute(e, q - e, r);
    }
  }

  // ---------------------------------------------------------------------------------------
  // Exactly what is allowed
  // ---------------------------------------------------------------------------------------

  /** The bucket after a run that starts with no key. */
  function After(calls: seq<Request>, cfg: Config): Option<Bucket> {
    if calls == [] then None
    else
      var last := calls[|calls| - 1];
      Some(Take(After(calls[..|calls| - 1], cfg), last.now, last.requested, cfg).bucket)
  }

  predicate AllowedAt(calls: seq<Request>, n: nat, cfg: Config)
    requires n < |calls|
  {
    Take(After(calls[..n], cfg), calls[n].now, calls[n].requested, cfg).allowed
  }

  function GrantedAt(calls: seq<Request>, n: nat, cfg: Config): real
    requires n < |calls|
  {
    if AllowedAt(calls, n, cfg) then calls[n].requested else 0.0
  }

  /** What calls i up to, but not including, n were granted. */
  function GrantedSince(calls: seq<Request>, i: nat, n: nat, cfg: Config): real
    requires i <= n <= |calls|
  {
    if i == n then 0.0 else GrantedSince(calls, i, n - 1, cfg) + GrantedAt(calls, n - 1, cfg)
  }

  /** Granting x tokens at `now`, after the first n calls, keeps the rate bound on every interval that
      begins with one of them: one full bucket plus what accrues. */
  ghost predicate Fits(calls: seq<Request>, n: nat, x: real, now: real, cfg: Config)
    requires n <= |calls|
  {
    && x <= cfg.capacity
    && forall i :: 0 <= i < n ==> FitsSince(calls, i, n, x, now, cfg)
  }

  ghost predicate FitsSince(calls: seq<Request>, i: nat, n: nat, x: real, now: real, cfg: Config)
    requires i < n <= |calls|
  {
    x + GrantedSince(calls, i, n, cfg) <= cfg.capacity + Accrued(calls[i].now, now, cfg)
  }

  lemma {:induction false} RunIsSound(calls: seq<Request>, n: nat, since: real, now: real, cfg: Config)
    requires cfg.Valid() && Ordered(calls, since) && n <= |calls| && (n > 0 ==> calls[n - 1].now <= now)
    ensures Sound(After(calls[..n], cfg), cfg) && NotAfter(After(calls[..n], cfg), now)
    decreases n
  {
    if n > 0 {
      assert calls[..n][..n - 1] == calls[..n - 1];
      RunIsSound(calls, n - 1, since, calls[n - 1].now, cfg);
      TakeStaysInRange(After(calls[..n - 1], cfg), calls[n - 1].now, calls[n - 1].requested, cfg);
    }
  }

  /** One more call: a demand at `now` fits after it iff the demand, less what accrues in between and
      plus what the call was granted, fitted at its own moment. */
  lemma FitsStep(calls: seq<Request>, n: nat, x: real, now: real, since: real, cfg: Config)
    requires cfg.Valid() && Ordered(calls, since) && 0 < n <= |calls| && calls[n - 1].now <= now
    ensures var before := x - Accrued(calls[n - 1].now, now, cfg) + GrantedAt(calls, n - 1, cfg);
            Fits(calls, n, x, now, cfg) <==>
            x <= cfg.capacity && Fits(calls, n - 1, before, calls[n - 1].now, cfg)
  {
    var m, t := n - 1, calls[n - 1].now;
    var before := x - Accrued(t, now, cfg) + GrantedAt(calls, m, cfg);
    assert GrantedSince(calls, m, n, cfg) == GrantedAt(calls, m, cfg);
    assert FitsSince(calls, m, n, x, now, cfg) <==> before <= cfg.capacity;
    forall i | 0 <= i < m
      ensures FitsSince(calls, i, n, x, now, cfg) <==> FitsSince(calls, i, m, before, t, cfg)
    {
      AccruedFacts(calls[i].now, t, now, cfg);
    }
    assert Fits(calls, n, x, now, cfg) <==> x <= cfg.capacity && Fits(calls, m, before, t, cfg);
  }

  lemma AvailableAfter(calls: seq<Request>, n: nat, x: real, now: real, since: real, cfg: Config)
    requires cfg.Valid() && Ordered(calls, since) && 0 < n <= |calls| && calls[n - 1].now <= now
    ensures var t := calls[n - 1].now;
            x <= Available(After(calls[..n], cfg), now, cfg) <==>
            && x <= cfg.capacity
            && x - Accrued(t, now, cfg) + GrantedAt(calls, n - 1, cfg) <= Available(After(calls[..n - 1], cfg), t, cfg)
  {
    assert calls[..n][..n - 1] == calls[..n - 1];
    RunIsSound(calls, n, since, now, cfg);
    AvailableIsCappedAccrual(After(calls[..n], cfg), now, cfg);
  }

  lemma {:induction false} AvailableExactly(calls: seq<Request>, n: nat, x: real, now: real, since: real, cfg: Config)
    requires cfg.Valid() && Ordered(calls, since) && n <= |calls| && (n > 0 ==> calls[n - 1].now <= now)
    ensures x <= Available(After(calls[..n], cfg), now, cfg) <==> Fits(calls, n, x, now, cfg)
    decreases n
  {
    if n == 0 {
      AvailableIsCappedAccrual(None, now, cfg);
    } else {
      var t := calls[n - 1].now;
      var before := x - Accrued(t, now, cfg) + GrantedAt(calls, n - 1, cfg);
      AvailableAfter(calls, n, x, now, since, cfg);
      AvailableExactly(calls, n - 1, before, t, since, cfg);
      FitsStep(calls, n, x, now, since, cfg);
    }
  }

  /** The bucket denies nothing it need not: a call is allowed iff granting it keeps the rate bound on
      every interval that begins with an earlier call, and it fits the bucket at all. */
  lemma AllowedExactly(calls: seq<Request>, n: nat, since: real, cfg: Config)
    requires cfg.Valid() && Ordered(calls, since) && n < |calls|
    ensures AllowedAt(calls, n, cfg) <==> Fits(calls, n, calls[n].requested, calls[n].now, cfg)
  {
    AvailableExactly(calls, n, calls[n].requested, calls[n].now, since, cfg);
  }

  /** A denied call leaves no trace: everything after it is answered as if it had not been made. */
  lemma DeniedLeavesNoTrace(b: Option<Bucket>, now: real, requested: real, later: seq<Request>, cfg: Config)
    requires cfg.Valid() && Sound(b, cfg) && NotAfter(b, now) && requested >= 0.0 && Ordered(later, now)
    requires !Take(b, now, requested, cfg).allowed
    ensures Answers(Some(Take(b, now, requested, cfg).bucket), later, cfg) == Answers(b, later, cfg)
  {
    var b' := Some(Take(b, now, requested, cfg).bucket);
    TakeStaysInRange(b, now, requested, cfg);
    AvailableIsCappedAccrual(b, now, cfg);
    if later != [] {
      var t := later[0].now;
      AvailableIsCappedAccrual(b, t, cfg);
      AvailableIsCappedAccrual(b', t, cfg);
      AccruedFacts(now, t, t, cfg);
      if b.Some? {
        AccruedFacts(b.value.lastRefill, now, t, cfg);
      }
      assert Take(b, t, later[0].requested, cfg) == Take(b', t, later[0].requested, cfg);
    }
  }

  function AllowedIn(answers: seq<Taken>): nat {
    if answers == [] then 0 else AllowedIn(answers[1..]) + if answers[0].allowed then 1 else 0
  }

  function UnitCalls(n: nat, now: real): seq<Request> {
    if n == 0 then [] else [Request(now, 1.0)] + UnitCalls(n - 1, now)
  }

  lemma {:induction false} Burst(b: Bucket, n: nat, cfg: Config)
    requires cfg.Valid() && 0.0 <= b.tokens <= cfg.capacity
    ensures AllowedIn(Answers(Some(b), UnitCalls(n, b.lastRefill), cfg)) ==
            if n <= b.tokens.Floor then n else b.tokens.Floor
    decreases n
  {
    if n > 0 {
      var now := b.lastRefill;
      AvailableIsCappedAccrual(Some(b), now, cfg);
      AccruedFacts(now, now, now, cfg);
      var t := Take(Some(b), now, 1.0, cfg);
      var calls := UnitCalls(n, now);
      assert calls[0] == Request(now, 1.0) && calls[1..] == UnitCalls(n - 1, now);
      Burst(t.bucket, n - 1, cfg);
      var answers := Answers(Some(b), calls, cfg);
      assert answers[0] == t && answers[1..] == Answers(Some(t.bucket), UnitCalls(n - 1, now), cfg);
    }
  }

  /** Of n unit calls at one moment on a new bucket, exactly the lesser of n and the whole tokens of a
      full bucket are allowed. */
  lemma FullBucketBurst(n: nat, now: real, cfg: Config)
    requires cfg.Valid()
    ensures AllowedIn(Answers(None, UnitCalls(n, now), cfg)) ==
            if n <= cfg.capacity.Floor then n else cfg.capacity.Floor
  {
    var full := Bucket(cfg.capacity, now);
    AvailableIsCappedAccrual(None, now, cfg);
    AvailableIsCappedAccrual(Some(full), now, cfg);
    AccruedFacts(now, now, now, cfg);
    if n > 0 {
      assert Take(None, now, 1.0, cfg) == Take(Some(full), now, 1.0, cfg);
    }
    Burst(full, n, cfg);
  }
}
