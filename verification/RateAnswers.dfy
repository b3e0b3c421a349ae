/** What an answer of the limiter tells the caller: whether the request was let
    through, how many more would be, and how long to wait. */
module RateAnswers {
  import opened Totals
  import opened RateLimits

  /** How many of n requests of one key at one moment are admitted. */
  function AdmittedAtOnce(l: Limits, s: Buckets, key: string, now: int, n: nat): nat
    decreases n
  {
    if n == 0 then 0
    else (if Admits(l, s, key, now) then 1 else 0) + AdmittedAtOnce(l, Next(l, s, key, now), key, now, n - 1)
  }

  /** So many requests are admitted now, however many more are made. */
  ghost predicate LastsFor(l: Limits, s: Buckets, key: string, now: int, m: int) {
    forall n: nat :: AdmittedAtOnce(l, s, key, now, n) == if n <= m then n else m
  }

  /** The key is admitted after this wait and after no shorter one, when nobody
      else asks in between. */
  ghost predicate IsLeastWait(l: Limits, s: Buckets, key: string, now: int, wait: int) {
    && wait >= 1 && Admits(l, s, key, now + wait)
    && forall t | now <= t < now + wait :: !Admits(l, s, key, t)
  }

  /** What the answer means, given the buckets before the request. */
  ghost predicate Answers(l: Limits, s: Buckets, key: string, now: int, d: Decision) {
    && d.limit == l.requests
    && (d.allowed <==> Admits(l, s, key, now))
    && (d.allowed ==> d.retryAfter == 0 && LastsFor(l, Next(l, s, key, now), key, now, d.remaining))
    && (!d.allowed ==> d.remaining == 0)
    && (!d.allowed && BucketsInv(l, s, now) ==> IsLeastWait(l, Next(l, s, key, now), key, now, d.retryAfter))
  }

  // ---- How many more ----

  ghost predicate HasTokens(l: Limits, s: Buckets, key: string, now: int) {
    key in s && s[key].last == now && 0.0 <= s[key].tokens <= Full(l)
  }

  lemma {:induction false} TokensLast(l: Limits, s: Buckets, key: string, now: int, n: nat)
    requires HasTokens(l, s, key, now)
    ensures AdmittedAtOnce(l, s, key, now, n) == if n <= s[key].tokens.Floor then n else s[key].tokens.Floor
    decreases n
  {
    if n > 0 {
      assert Level(l, s[key], now) == s[key].tokens;
      TokensLast(l, Next(l, s, key, now), key, now, n - 1);
      assert (s[key].tokens - 1.0).Floor == s[key].tokens.Floor - 1;
    }
  }

  lemma TokensLastFor(l: Limits, s: Buckets, key: string, now: int)
    requires HasTokens(l, s, key, now)
    ensures LastsFor(l, s, key, now, s[key].tokens.Floor)
  {
    forall n: nat
      ensures AdmittedAtOnce(l, s, key, now, n) == if n <= s[key].tokens.Floor then n else s[key].tokens.Floor
    {
      TokensLast(l, s, key, now, n);
    }
  }

  /** A key that finds room for the first time has the requests of a whole window. */
  lemma NewKeyLasts(l: Limits, s: Buckets, key: string, now: int)
    requires key !in s && !AtCapacity(l, s, key, now)
    ensures LastsFor(l, s, key, now, l.requests)
  {
    FreshLevel(l, now);
    var after := Next(l, s, key, now);
    TokensLastFor(l, after, key, now);
    assert Admits(l, s, key, now) && after[key].tokens == Full(l) - 1.0;
    assert (Full(l) - 1.0).Floor == l.requests - 1;
    hide Admits, Next, HasTokens, AtCapacity;
    forall n: nat
      ensures AdmittedAtOnce(l, s, key, now, n) == if n <= l.requests then n else l.requests
    {
      if n > 0 {
        assert AdmittedAtOnce(l, after, key, now, n - 1) == if n - 1 <= l.requests - 1 then n - 1 else l.requests - 1;
      }
    }
  }

  // ---- How long to wait ----

  lemma ProductOrder(a: real, b: real, c: real)
    requires a <= b && c >= 0.0
    ensures a * c <= b * c
  {
    ProductPositive(b - a, c);
    Distributes(a, b - a, c);
  }

  lemma ProductBelow(a: real, b: real, c: real)
    requires a < b && c > 0.0
    ensures a * c < b * c
  {
  }

  lemma BelowQuotient(a: real, b: real, c: real)
    requires c > 0.0 && a < b / c
    ensures a * c < b
  {
    ProductBelow(a, b / c, c);
    QuotientBack(b, c);
  }

  lemma RetryIsEnough(l: Limits, tokens: real)
    requires tokens < 1.0
    ensures tokens + Refill(l, RetryAfter(l, tokens)) >= 1.0
  {
    var missing := 1.0 - tokens;
    var exact := missing / Rate(l);
    QuotientBack(missing, Rate(l));
    PositiveQuotient(missing, Rate(l));
    assert exact <= RetryAfter(l, tokens) as real;
    ProductOrder(exact, RetryAfter(l, tokens) as real, Rate(l));
    RefillIsProduct(l, RetryAfter(l, tokens));
  }

  /** Waiting any less leaves less than a token. */
  lemma LessIsNotEnough(l: Limits, tokens: real, less: nat)
    requires tokens < 1.0 && less < RetryAfter(l, tokens)
    ensures tokens + Refill(l, less) < 1.0
  {
    var missing := 1.0 - tokens;
    var exact := missing / Rate(l);
    QuotientBack(missing, Rate(l));
    PositiveQuotient(missing, Rate(l));
    assert less as real < exact;
    RefillIsProduct(l, less);
    BelowQuotient(less as real, missing, Rate(l));
  }

  lemma TokenWait(l: Limits, s: Buckets, key: string, now: int)
    requires key in s && s[key].last == now && s[key].tokens < 1.0
    ensures IsLeastWait(l, s, key, now, RetryAfter(l, s[key].tokens))
  {
    var tokens := s[key].tokens;
    RetryIsEnough(l, tokens);
    hide RetryAfter, Refill;
    forall t | now <= t < now + RetryAfter(l, tokens)
      ensures !Admits(l, s, key, t)
    {
      LessIsNotEnough(l, tokens, t - now);
    }
  }

  /** The whole wait of a refusal at capacity: until the first bucket is a window
      old. */
  ghost predicate IsCapacityRetry(l: Limits, s: Buckets, now: int, retry: int) {
    && 1 <= retry <= l.window
    && (forall key | key in s && s[key].last + l.window > now :: retry <= s[key].last + l.window - now)
    && (retry == l.window || exists key | key in s :: retry == s[key].last + l.window - now)
  }

  /** A table in which nothing can be pruned yet. */
  ghost predicate AllYoung(l: Limits, s: Buckets, now: int) {
    forall key | key in s :: now - l.window < s[key].last <= now
  }

  lemma FreedBucket(l: Limits, s: Buckets, now: int, retry: int) returns (freed: string)
    requires AllYoung(l, s, now) && s != map[] && IsCapacityRetry(l, s, now, retry)
    ensures freed in s && now + retry - s[freed].last >= l.window
  {
    if retry == l.window {
      freed :| freed in s;
    } else {
      freed :| freed in s && retry == s[freed].last + l.window - now;
    }
  }

  lemma CapacityWait(l: Limits, s: Buckets, key: string, now: int, retry: int)
    requires AllYoung(l, s, now) && |s| == l.maxKeys && key !in s && IsCapacityRetry(l, s, now, retry)
    ensures IsLeastWait(l, s, key, now, retry)
  {
    assert s != map[];
    var freed := FreedBucket(l, s, now, retry);
    var pruned := Pruned(l, s, now + retry);
    assert freed !in pruned && pruned.Keys <= s.Keys - {freed};
    SubsetSize(pruned.Keys, s.Keys - {freed});
    assert Admits(l, s, key, now + retry);
    forall t | now <= t < now + retry
      ensures !Admits(l, s, key, t)
    {
      assert Pruned(l, s, t) == s;
    }
  }

  lemma PrunedIsYoung(l: Limits, s: Buckets, now: int)
    requires BucketsInv(l, s, now)
    ensures AllYoung(l, Pruned(l, s, now), now) && |Pruned(l, s, now)| <= l.maxKeys
  {
    PrunedSize(l, s, now);
  }

  // ---- The three answers ----

  lemma AllowedAnswer(l: Limits, s: Buckets, key: string, now: int)
    requires Admits(l, s, key, now)
    ensures Answers(l, s, key, now, Decision(true, l.requests, (LevelOf(l, s, key, now) - 1.0).Floor, 0))
  {
    FreshLevel(l, now);
    TokensLastFor(l, Next(l, s, key, now), key, now);
  }

  lemma DeniedAnswer(l: Limits, s: Buckets, key: string, now: int)
    requires !AtCapacity(l, s, key, now) && !Admits(l, s, key, now)
    ensures Answers(l, s, key, now, Decision(false, l.requests, 0, RetryAfter(l, LevelOf(l, s, key, now))))
  {
    FreshLevel(l, now);
    TokenWait(l, Next(l, s, key, now), key, now);
  }

  lemma RefusedAnswer(l: Limits, s: Buckets, key: string, now: int, retry: int)
    requires AtCapacity(l, s, key, now) && IsCapacityRetry(l, Pruned(l, s, now), now, retry)
    ensures Answers(l, s, key, now, Decision(false, l.requests, 0, retry))
  {
    if BucketsInv(l, s, now) {
      PrunedIsYoung(l, s, now);
      CapacityWait(l, Pruned(l, s, now), key, now, retry);
    }
  }
}
