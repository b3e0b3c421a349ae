/** The token bucket of one key and the bounded table of buckets, over exact
    time and tokens. */
module RateLimits {
  import opened Totals

  /** Requests per window, the window in nanoseconds, and the size of the table. */
  datatype LimitValues = LimitValues(requests: int, window: int, maxKeys: int)

  type Limits = l: LimitValues | l.requests >= 1 && l.window >= 1 && l.maxKeys >= 1 witness LimitValues(1, 1, 1)

  datatype Bucket = Bucket(tokens: real, last: int)

  type Buckets = map<string, Bucket>

  datatype Decision = Decision(allowed: bool, limit: int, remaining: int, retryAfter: int)

  function Full(l: Limits): (tokens: real)
    ensures tokens >= 1.0
  {
    l.requests as real
  }

  /** refillPerNanosecond */
  function Rate(l: Limits): (rate: real)
    ensures rate > 0.0
  {
    PositiveQuotient(l.requests as real, l.window as real);
    l.requests as real / l.window as real
  }

  lemma PositiveQuotient(a: real, b: real)
    requires a > 0.0 && b > 0.0
    ensures a / b > 0.0
  {
    if a / b <= 0.0 {
      assert a == (a / b) * b;
    }
  }

  function Elapsed(from: int, to: int): nat {
    if to < from then 0 else to - from
  }

  /** elapsed * refillPerNanosecond, one nanosecond after the other. */
  function Refill(l: Limits, elapsed: nat): (tokens: real)
    ensures tokens >= 0.0
  {
    if elapsed == 0 then 0.0 else Refill(l, elapsed - 1) + Rate(l)
  }

  lemma {:induction false} RefillIsProduct(l: Limits, elapsed: nat)
    ensures Refill(l, elapsed) == elapsed as real * Rate(l)
  {
    if elapsed > 0 {
      RefillIsProduct(l, elapsed - 1);
      Distributes((elapsed - 1) as real, 1.0, Rate(l));
    }
  }

  lemma ProductPositive(a: real, b: real)
    requires a >= 0.0 && b >= 0.0
    ensures a * b >= 0.0
  {
  }

  lemma {:induction false} RefillAdds(l: Limits, a: nat, b: nat)
    ensures Refill(l, a + b) == Refill(l, a) + Refill(l, b)
  {
    if b > 0 {
      RefillAdds(l, a, b - 1);
    }
  }

  lemma Distributes(a: real, b: real, c: real)
    ensures (a + b) * c == a * c + b * c
  {
  }

  lemma RefillOrder(l: Limits, a: nat, b: nat)
    requires a <= b
    ensures Refill(l, a) <= Refill(l, b)
  {
    RefillAdds(l, a, b - a);
  }

  /** A whole window refills a whole bucket. */
  lemma WindowRefills(l: Limits, elapsed: nat)
    requires elapsed >= l.window
    ensures Refill(l, elapsed) >= Full(l)
  {
    QuotientBack(l.requests as real, l.window as real);
    RefillIsProduct(l, l.window);
    RefillOrder(l, l.window, elapsed);
  }

  lemma QuotientBack(a: real, b: real)
    requires b > 0.0
    ensures b * (a / b) == a
  {
  }

  function Min(a: real, b: real): real {
    if a <= b then a else b
  }

  /** The tokens of a bucket at a later time. */
  function Level(l: Limits, b: Bucket, now: int): real {
    Min(Full(l), b.tokens + Refill(l, Elapsed(b.last, now)))
  }

  /** A clock that goes back refills nothing. */
  lemma NoRefillBackwards(l: Limits, b: Bucket, now: int)
    requires now <= b.last && b.tokens <= Full(l)
    ensures Level(l, b, now) == b.tokens
  {
  }

  /** A key without a bucket has all its tokens. */
  function LevelOf(l: Limits, s: Buckets, key: string, now: int): real {
    if key in s then Level(l, s[key], now) else Full(l)
  }

  /** Whole nanoseconds until one token is there, at least one. */
  function RetryAfter(l: Limits, tokens: real): (retry: int)
    ensures retry >= 1
  {
    var exact := (1.0 - tokens) / Rate(l);
    var ceiling := -((-exact).Floor);
    if ceiling < 1 then 1 else ceiling
  }

  /** The bucket after a request that found this many tokens. */
  function Taken(level: real, now: int): Bucket {
    Bucket(if level >= 1.0 then level - 1.0 else level, now)
  }

  function Pruned(l: Limits, s: Buckets, now: int): (pruned: Buckets)
    ensures forall key | key in pruned :: key in s && pruned[key] == s[key]
  {
    map key | key in s && now - s[key].last < l.window :: s[key]
  }

  /** A key without a bucket is refused when the table is still full after pruning. */
  predicate AtCapacity(l: Limits, s: Buckets, key: string, now: int) {
    key !in s && |Pruned(l, s, now)| >= l.maxKeys
  }

  function Next(l: Limits, s: Buckets, key: string, now: int): Buckets {
    if key in s then s[key := Taken(Level(l, s[key], now), now)]
    else if AtCapacity(l, s, key, now) then Pruned(l, s, now)
    else Pruned(l, s, now)[key := Taken(Level(l, Bucket(Full(l), now), now), now)]
  }

  predicate Admits(l: Limits, s: Buckets, key: string, now: int) {
    !AtCapacity(l, s, key, now) && LevelOf(l, s, key, now) >= 1.0
  }

  // ---- What every request keeps ----

  ghost predicate BucketsInv(l: Limits, s: Buckets, clock: int) {
    && |s| <= l.maxKeys
    && forall key | key in s :: 0.0 <= s[key].tokens <= Full(l) && s[key].last <= clock
  }

  lemma FreshLevel(l: Limits, now: int)
    ensures Level(l, Bucket(Full(l), now), now) == Full(l)
  {
  }

  lemma PrunedSize(l: Limits, s: Buckets, now: int)
    ensures |Pruned(l, s, now)| <= |s|
  {
    assert Pruned(l, s, now).Keys <= s.Keys;
    SubsetSize(Pruned(l, s, now).Keys, s.Keys);
  }

  lemma UpdateSize(s: Buckets, key: string, bucket: Bucket)
    ensures |s[key := bucket]| == if key in s then |s| else |s| + 1
  {
    assert s[key := bucket].Keys == s.Keys + {key};
  }

  lemma RequestKeepsInv(l: Limits, s: Buckets, clock: int, key: string, now: int)
    requires BucketsInv(l, s, clock) && clock <= now
    ensures BucketsInv(l, Next(l, s, key, now), now)
  {
    PrunedSize(l, s, now);
    UpdateSize(s, key, Taken(LevelOf(l, s, key, now), now));
    UpdateSize(Pruned(l, s, now), key, Taken(Level(l, Bucket(Full(l), now), now), now));
  }

  /** Only full buckets are pruned, so no level changes, now or later. */
  lemma PruningKeepsLevels(l: Limits, s: Buckets, clock: int, now: int, key: string, later: int)
    requires BucketsInv(l, s, clock) && clock <= now <= later
    ensures LevelOf(l, Pruned(l, s, now), key, later) == LevelOf(l, s, key, later)
  {
    if key in s && key !in Pruned(l, s, now) {
      WindowRefills(l, Elapsed(s[key].last, later));
    }
  }

  /** A request costs its own key one token if it is admitted, and nothing else. */
  lemma RequestLevels(l: Limits, s: Buckets, clock: int, key: string, now: int, other: string)
    requires BucketsInv(l, s, clock) && clock <= now
    ensures LevelOf(l, Next(l, s, key, now), other, now) ==
            LevelOf(l, s, other, now) - if other == key && Admits(l, s, key, now) then 1.0 else 0.0
  {
    PruningKeepsLevels(l, s, clock, now, other, now);
    FreshLevel(l, now);
  }

  lemma LevelGrows(l: Limits, s: Buckets, clock: int, key: string, now: int)
    requires BucketsInv(l, s, clock) && clock <= now
    ensures LevelOf(l, s, key, now) <= LevelOf(l, s, key, clock) + Refill(l, now - clock)
    ensures 0.0 <= LevelOf(l, s, key, now) <= Full(l)
  {
    if key in s {
      RefillAdds(l, clock - s[key].last, now - clock);
    }
  }
}
