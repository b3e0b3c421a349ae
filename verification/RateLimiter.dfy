/** The in-memory rate limiter: its answers against a limiter that never prunes,
    its rate over every interval, and what waiting for RetryAfter is worth. */
module RateLimiters {
  import opened Wrappers
  import opened Text
  import opened Totals
  import opened RateLimits
  import opened RateAnswers

  datatype Arrival = Arrival(key: string, now: int)

  /** Non-decreasing times from the clock on. */
  predicate Timed(arrivals: seq<Arrival>, clock: int)
    decreases |arrivals|
  {
    arrivals == [] || (clock <= arrivals[0].now && Timed(arrivals[1..], arrivals[0].now))
  }

  function After(l: Limits, s: Buckets, arrivals: seq<Arrival>): Buckets
    decreases |arrivals|
  {
    if arrivals == [] then s else After(l, Next(l, s, arrivals[0].key, arrivals[0].now), arrivals[1..])
  }

  function EndOf(arrivals: seq<Arrival>, clock: int): int {
    if arrivals == [] then clock else arrivals[|arrivals| - 1].now
  }

  lemma {:induction false} RunKeepsInv(l: Limits, s: Buckets, clock: int, arrivals: seq<Arrival>)
    requires BucketsInv(l, s, clock) && Timed(arrivals, clock)
    ensures BucketsInv(l, After(l, s, arrivals), EndOf(arrivals, clock)) && clock <= EndOf(arrivals, clock)
    decreases |arrivals|
  {
    if arrivals != [] {
      RequestKeepsInv(l, s, clock, arrivals[0].key, arrivals[0].now);
      RunKeepsInv(l, Next(l, s, arrivals[0].key, arrivals[0].now), arrivals[0].now, arrivals[1..]);
      assert EndOf(arrivals[1..], arrivals[0].now) == EndOf(arrivals, clock);
    }
  }

  // ---- The rate over an interval ----

  function Admitted(l: Limits, s: Buckets, arrivals: seq<Arrival>, key: string): nat
    decreases |arrivals|
  {
    if arrivals == [] then 0
    else
      (if arrivals[0].key == key && Admits(l, s, key, arrivals[0].now) then 1 else 0)
      + Admitted(l, Next(l, s, arrivals[0].key, arrivals[0].now), arrivals[1..], key)
  }

  /** Admitted requests are paid for by the tokens at the start and the refill. */
  lemma {:induction false} AdmittedArePaid(l: Limits, s: Buckets, clock: int, arrivals: seq<Arrival>, key: string,
      end: int)
    requires BucketsInv(l, s, clock) && Timed(arrivals, clock) && EndOf(arrivals, clock) <= end && clock <= end
    ensures Admitted(l, s, arrivals, key) as real <= LevelOf(l, s, key, clock) + Refill(l, end - clock)
    decreases |arrivals|
  {
    hide LevelOf, Next;
    if arrivals == [] {
      LevelGrows(l, s, clock, key, clock);
    } else {
      var first, rest := arrivals[0], arrivals[1..];
      var next := Next(l, s, first.key, first.now);
      RequestKeepsInv(l, s, clock, first.key, first.now);
      TimedEnd(arrivals, clock);
      AdmittedArePaid(l, next, first.now, rest, key, end);
      ArrivalIsPaid(l, s, clock, first, key);
      AdmittedStep(l, s, arrivals, key);
      RefillAdds(l, first.now - clock, end - first.now);
      assert (first.now - clock) + (end - first.now) == end - clock;
    }
  }

  lemma AdmittedStep(l: Limits, s: Buckets, arrivals: seq<Arrival>, key: string)
    requires arrivals != []
    ensures var first, rest := arrivals[0], arrivals[1..];
            Admitted(l, s, arrivals, key) as real ==
            (if first.key == key && Admits(l, s, key, first.now) then 1.0 else 0.0)
            + Admitted(l, Next(l, s, first.key, first.now), rest, key) as real
  {
  }

  lemma ArrivalIsPaid(l: Limits, s: Buckets, clock: int, a: Arrival, key: string)
    requires BucketsInv(l, s, clock) && clock <= a.now
    ensures LevelOf(l, Next(l, s, a.key, a.now), key, a.now)
            + (if a.key == key && Admits(l, s, key, a.now) then 1.0 else 0.0)
            <= LevelOf(l, s, key, clock) + Refill(l, a.now - clock)
  {
    RequestLevels(l, s, clock, a.key, a.now, key);
    LevelGrows(l, s, clock, key, a.now);
  }

  lemma {:induction false} TimedParts(first: seq<Arrival>, second: seq<Arrival>, clock: int)
    requires Timed(first + second, clock)
    ensures Timed(first, clock) && Timed(second, EndOf(first, clock))
    decreases |first|
  {
    if first == [] {
      assert first + second == second;
    } else {
      assert (first + second)[1..] == first[1..] + second;
      TimedParts(first[1..], second, first[0].now);
      assert EndOf(first[1..], first[0].now) == EndOf(first, clock);
    }
  }

  lemma InvLater(l: Limits, s: Buckets, clock: int, later: int)
    requires BucketsInv(l, s, clock) && clock <= later
    ensures BucketsInv(l, s, later)
  {
  }

  lemma AdmittedWithin(l: Limits, s: Buckets, clock: int, within: seq<Arrival>, key: string, to: int)
    requires BucketsInv(l, s, clock) && Timed(within, clock) && within != [] && EndOf(within, clock) <= to
    ensures within[0].now <= to
    ensures Admitted(l, s, within, key) as real <= Full(l) + Refill(l, to - within[0].now)
  {
    hide Admitted;
    var first := within[0].now;
    TimedEnd(within, clock);
    InvLater(l, s, clock, first);
    AdmittedArePaid(l, s, first, within, key, to);
    LevelGrows(l, s, first, key, first);
  }

  /** An answer the limiter gave, and when. */
  datatype Answered = Answered(arrival: Arrival, decision: Decision)

  /** A run of the limiter: each answer means what Allow promises of it. */
  ghost predicate Answering(l: Limits, s: Buckets, run: seq<Answered>)
    decreases |run|
  {
    run == [] ||
    var a := run[0].arrival;
    Answers(l, s, a.key, a.now, run[0].decision) && Answering(l, Next(l, s, a.key, a.now), run[1..])
  }

  function Arrivals(run: seq<Answered>): seq<Arrival> {
    seq(|run|, i requires 0 <= i < |run| => run[i].arrival)
  }

  /** How often the key was allowed. */
  function Allowed(run: seq<Answered>, key: string): nat
    decreases |run|
  {
    if run == [] then 0
    else (if run[0].arrival.key == key && run[0].decision.allowed then 1 else 0) + Allowed(run[1..], key)
  }

  lemma {:induction false} AllowedIsAdmitted(l: Limits, s: Buckets, run: seq<Answered>, key: string)
    requires Answering(l, s, run)
    ensures Allowed(run, key) == Admitted(l, s, Arrivals(run), key)
    decreases |run|
  {
    if run != [] {
      assert Arrivals(run)[1..] == Arrivals(run[1..]);
      AllowedIsAdmitted(l, Next(l, s, run[0].arrival.key, run[0].arrival.now), run[1..], key);
    }
  }

  lemma {:induction false} AnsweringParts(l: Limits, s: Buckets, first: seq<Answered>, second: seq<Answered>)
    requires Answering(l, s, first + second)
    ensures Answering(l, s, first) && Answering(l, After(l, s, Arrivals(first)), second)
    decreases |first|
  {
    if first == [] {
      assert first + second == second;
    } else {
      assert (first + second)[1..] == first[1..] + second;
      assert Arrivals(first)[1..] == Arrivals(first[1..]);
      hide Answers;
      AnsweringParts(l, Next(l, s, first[0].arrival.key, first[0].arrival.now), first[1..], second);
    }
  }

  lemma {:induction false} ProductAsReal(a: nat, b: nat)
    ensures (a * b) as real == a as real * b as real
  {
    if a > 0 {
      ProductAsReal(a - 1, b);
      assert a * b == (a - 1) * b + b;
      Distributes((a - 1) as real, 1.0, b as real);
    }
  }

  /** The refill of d times the window is d times the requests. */
  lemma RefillOfWindow(l: Limits, d: nat)
    ensures Refill(l, d) * l.window as real == d as real * l.requests as real
  {
    RefillIsProduct(l, d);
    QuotientBack(l.requests as real, l.window as real);
    Regrouped(d as real, Rate(l), l.window as real);
  }

  lemma Regrouped(a: real, b: real, c: real)
    ensures a * b * c == a * (c * b)
  {
  }

  lemma WholeNumbers(l: Limits, n: nat, d: nat)
    requires n as real <= Full(l) + Refill(l, d)
    ensures n * l.window <= l.requests * (l.window + d)
  {
    ProductAsReal(n, l.window);
    ProductAsReal(l.requests, l.window);
    ProductAsReal(d, l.requests);
    RefillOfWindow(l, d);
    hide Refill;
    ProductOrder(n as real, Full(l) + Refill(l, d), l.window as real);
    Distributes(Full(l), Refill(l, d), l.window as real);
    assert l.requests * (l.window + d) == l.requests * l.window + d * l.requests;
  }

  /** In every run of the limiter, the answers that allow a key within an interval
      of any length d are at most Requests and d times the rate: Requests * (Window
      + d) / Window. */
  lemma RateOverInterval(l: Limits, start: int, earlier: seq<Answered>, within: seq<Answered>, key: string, from: int,
      to: int)
    requires Answering(l, map[], earlier + within) && Timed(Arrivals(earlier + within), start) && from <= to
    requires forall i | 0 <= i < |within| :: from <= within[i].arrival.now <= to
    ensures Allowed(within, key) * l.window <= l.requests * (l.window + (to - from))
  {
    assert Arrivals(earlier + within) == Arrivals(earlier) + Arrivals(within);
    AnsweringParts(l, map[], earlier, within);
    AllowedIsAdmitted(l, After(l, map[], Arrivals(earlier)), within, key);
    AdmittedOverInterval(l, start, Arrivals(earlier), Arrivals(within), key, from, to);
    WholeNumbers(l, Allowed(within, key), to - from);
  }

  /** In every run, the requests admitted for a key within an interval of any
      length d are at most Requests plus the refill of d, which RefillIsProduct
      shows to be d * Requests / Window. */
  lemma AdmittedOverInterval(l: Limits, start: int, earlier: seq<Arrival>, within: seq<Arrival>, key: string, from: int,
      to: int)
    requires Timed(earlier + within, start) && from <= to
    requires forall i | 0 <= i < |within| :: from <= within[i].now <= to
    ensures Admitted(l, After(l, map[], earlier), within, key) as real <= Full(l) + Refill(l, to - from)
  {
    hide After;
    TimedParts(earlier, within, start);
    RunKeepsInv(l, map[], start, earlier);
    if within != [] {
      AdmittedWithin(l, After(l, map[], earlier), EndOf(earlier, start), within, key, to);
      RefillOrder(l, to - within[0].now, to - from);
    }
  }

  // ---- Against a limiter that never prunes ----

  /** The limiter whose table keeps every key for ever. */
  function UnboundedNext(l: Limits, u: Buckets, key: string, now: int): Buckets {
    u[key := Taken(LevelOf(l, u, key, now), now)]
  }

  /** Every key has the same tokens on both sides from now on. */
  ghost predicate SameLevels(l: Limits, s: Buckets, u: Buckets, clock: int) {
    forall key, t | t >= clock :: LevelOf(l, s, key, t) == LevelOf(l, u, key, t)
  }

  /** What the unbounded limiter holds after a request, when refusals for want of
      room are not passed on to it. */
  function Reference(l: Limits, s: Buckets, u: Buckets, key: string, now: int): Buckets {
    if AtCapacity(l, s, key, now) then u else UnboundedNext(l, u, key, now)
  }

  lemma SameStep(l: Limits, s: Buckets, u: Buckets, clock: int, key: string, now: int)
    requires BucketsInv(l, s, clock) && SameLevels(l, s, u, clock) && clock <= now
    ensures LevelOf(l, s, key, now) == LevelOf(l, u, key, now)
    ensures SameLevels(l, Next(l, s, key, now), Reference(l, s, u, key, now), now)
  {
    FreshLevel(l, now);
    forall other, t | t >= now
      ensures LevelOf(l, Next(l, s, key, now), other, t) == LevelOf(l, Reference(l, s, u, key, now), other, t)
    {
      PruningKeepsLevels(l, s, clock, now, other, t);
    }
  }

  predicate AdmitsUnbounded(l: Limits, u: Buckets, key: string, now: int) {
    LevelOf(l, u, key, now) >= 1.0
  }

  /** Both limiters give the same answers on the same tokens, the refusals at capacity aside, which
      cost nothing in either. */
  ghost predicate SameAnswers(l: Limits, s: Buckets, u: Buckets, arrivals: seq<Arrival>)
    decreases |arrivals|
  {
    arrivals == [] ||
    var key, now := arrivals[0].key, arrivals[0].now;
    && (!AtCapacity(l, s, key, now) ==>
          && (Admits(l, s, key, now) <==> AdmitsUnbounded(l, u, key, now))
          && LevelOf(l, s, key, now) == LevelOf(l, u, key, now))
    && SameAnswers(l, Next(l, s, key, now), Reference(l, s, u, key, now), arrivals[1..])
  }

  lemma {:induction false} PruningIsUnseen(l: Limits, s: Buckets, u: Buckets, clock: int, arrivals: seq<Arrival>)
    requires BucketsInv(l, s, clock) && SameLevels(l, s, u, clock) && Timed(arrivals, clock)
    ensures SameAnswers(l, s, u, arrivals)
    decreases |arrivals|
  {
    if arrivals != [] {
      var key, now := arrivals[0].key, arrivals[0].now;
      SameStep(l, s, u, clock, key, now);
      RequestKeepsInv(l, s, clock, key, now);
      PruningIsUnseen(l, Next(l, s, key, now), Reference(l, s, u, key, now), now, arrivals[1..]);
    }
  }

  /** So a new limiter answers every sequence of requests as one that never
      prunes. */
  lemma PruningIsNeverSeen(l: Limits, clock: int, arrivals: seq<Arrival>)
    requires Timed(arrivals, clock)
    ensures SameAnswers(l, map[], map[], arrivals)
  {
    PruningIsUnseen(l, map[], map[], clock, arrivals);
  }

  // ---- Waiting for RetryAfter ----

  /** While the bucket is younger than the window, requests on other keys leave
      it where it is. */
  lemma {:induction false} BucketStays(l: Limits, s: Buckets, clock: int, key: string, others: seq<Arrival>)
    requires Timed(others, clock) && key in s && EndOf(others, clock) < s[key].last + l.window
    requires forall i | 0 <= i < |others| :: others[i].key != key
    ensures key in After(l, s, others) && After(l, s, others)[key] == s[key]
    decreases |others|
  {
    if others != [] {
      TimedEnd(others, clock);
      assert EndOf(others[1..], others[0].now) == EndOf(others, clock);
      assert forall i | 0 <= i < |others[1..]| :: others[1..][i] == others[i + 1];
      BucketStays(l, Next(l, s, others[0].key, others[0].now), others[0].now, key, others[1..]);
    }
  }

  lemma {:induction false} TimedEnd(arrivals: seq<Arrival>, clock: int)
    requires Timed(arrivals, clock) && arrivals != []
    ensures clock <= arrivals[0].now <= EndOf(arrivals, clock)
    decreases |arrivals|
  {
    if |arrivals| > 1 {
      TimedEnd(arrivals[1..], arrivals[0].now);
    }
  }

  /** A key that was just denied for want of tokens. */
  ghost predicate JustDenied(l: Limits, s: Buckets, key: string, now: int) {
    BucketsInv(l, s, now) && key in s && s[key].last == now && s[key].tokens < 1.0
  }

  lemma DeniedIsJustDenied(l: Limits, s: Buckets, clock: int, key: string, now: int)
    requires BucketsInv(l, s, clock) && clock <= now
    requires !AtCapacity(l, s, key, now) && !Admits(l, s, key, now)
    ensures JustDenied(l, Next(l, s, key, now), key, now)
    ensures Next(l, s, key, now)[key].tokens == LevelOf(l, s, key, now)
  {
    RequestKeepsInv(l, s, clock, key, now);
    FreshLevel(l, now);
  }

  /** Requests on other keys until the caller comes back. */
  ghost predicate Meanwhile(key: string, others: seq<Arrival>, now: int, back: int) {
    && Timed(others, now) && EndOf(others, now) <= back
    && forall i | 0 <= i < |others| :: others[i].key != key
  }

  ghost predicate AlwaysAdmitted(l: Limits, s: Buckets, key: string, now: int, back: int) {
    forall others | Meanwhile(key, others, now, back) :: Admits(l, After(l, s, others), key, back)
  }

  /** A caller that waits exactly RetryAfter is admitted whatever other keys do,
      as long as RetryAfter is below the window. */
  lemma WaitingIsEnough(l: Limits, s: Buckets, key: string, now: int)
    requires JustDenied(l, s, key, now) && RetryAfter(l, s[key].tokens) < l.window
    ensures AlwaysAdmitted(l, s, key, now, now + RetryAfter(l, s[key].tokens))
  {
    var back := now + RetryAfter(l, s[key].tokens);
    RetryIsEnough(l, s[key].tokens);
    forall others | Meanwhile(key, others, now, back)
      ensures Admits(l, After(l, s, others), key, back)
    {
      BucketStays(l, s, now, key, others);
    }
  }

  function Burst(keys: seq<string>, at: int): seq<Arrival> {
    seq(|keys|, i requires 0 <= i < |keys| => Arrival(keys[i], at))
  }

  lemma {:induction false} BurstIsTimed(keys: seq<string>, at: int, clock: int)
    requires clock <= at
    ensures Timed(Burst(keys, at), clock)
    decreases |keys|
  {
    if keys != [] {
      assert Burst(keys, at)[1..] == Burst(keys[1..], at);
      BurstIsTimed(keys[1..], at, at);
    }
  }

  /** A table that holds only buckets of this very moment. */
  ghost predicate AllNow(s: Buckets, at: int) {
    forall key | key in s :: s[key].last == at
  }

  lemma NothingToPrune(l: Limits, s: Buckets, at: int)
    requires AllNow(s, at)
    ensures Pruned(l, s, at) == s
  {
  }

  lemma OneMoreBucket(l: Limits, s: Buckets, key: string, at: int)
    requires AllNow(s, at) && key !in s && |s| < l.maxKeys
    ensures var after := Next(l, s, key, at);
            AllNow(after, at) && after.Keys == s.Keys + {key} && |after| == |s| + 1
  {
    NothingToPrune(l, s, at);
    UpdateSize(s, key, Taken(Level(l, Bucket(Full(l), at), at), at));
  }

  lemma BurstFirst(l: Limits, s: Buckets, keys: seq<string>, at: int)
    requires keys != []
    ensures After(l, s, Burst(keys, at)) == After(l, Next(l, s, keys[0], at), Burst(keys[1..], at))
  {
    assert Burst(keys, at)[1..] == Burst(keys[1..], at);
  }

  lemma {:induction false} BurstFills(l: Limits, s: Buckets, keys: seq<string>, at: int)
    requires AllNow(s, at) && |s| + |keys| <= l.maxKeys
    requires forall i | 0 <= i < |keys| :: keys[i] !in s
    requires forall i, j | 0 <= i < j < |keys| :: keys[i] != keys[j]
    ensures var after := After(l, s, Burst(keys, at));
            AllNow(after, at) && |after| == |s| + |keys| && forall k | k in after :: k in s || k in keys
    decreases |keys|
  {
    if keys != [] {
      BurstFirst(l, s, keys, at);
      OneMoreBucket(l, s, keys[0], at);
      hide Next, AllNow, After, Burst;
      assert forall i | 0 <= i < |keys[1..]| :: keys[1..][i] == keys[i + 1];
      BurstFills(l, Next(l, s, keys[0], at), keys[1..], at);
    }
  }

  /** The first arrival of the burst prunes everything older. */
  lemma BurstStarts(l: Limits, s: Buckets, keys: seq<string>, at: int)
    requires keys != [] && keys[0] !in s && Pruned(l, s, at) == map[]
    ensures After(l, s, Burst(keys, at)) == After(l, map[], Burst(keys, at))
  {
    assert Pruned(l, map[], at) == map[];
  }

  /** As many distinct keys as the table has places, none of them in it or the
      caller's. */
  ghost predicate OtherKeys(l: Limits, s: Buckets, key: string, keys: seq<string>) {
    && |keys| == l.maxKeys && key !in keys && (forall i | 0 <= i < |keys| :: keys[i] !in s)
    && forall i, j | 0 <= i < j < |keys| :: keys[i] != keys[j]
  }

  lemma BurstIsOther(l: Limits, s: Buckets, keys: seq<string>, key: string, now: int, back: int)
    requires OtherKeys(l, s, key, keys) && now <= back
    ensures Meanwhile(key, Burst(keys, back), now, back)
  {
    BurstIsTimed(keys, back, now);
  }

  lemma AllPruned(l: Limits, s: Buckets, now: int, back: int)
    requires BucketsInv(l, s, now) && back >= now + l.window
    ensures Pruned(l, s, back) == map[]
  {
  }

  lemma TurnedAway(l: Limits, s: Buckets, key: string, now: int, back: int, others: seq<Arrival>)
    requires Meanwhile(key, others, now, back) && !Admits(l, After(l, s, others), key, back)
    ensures !AlwaysAdmitted(l, s, key, now, back)
  {
  }

  lemma FullOfOthers(l: Limits, s: Buckets, key: string, at: int)
    requires AllNow(s, at) && |s| == l.maxKeys && key !in s
    ensures !Admits(l, s, key, at)
  {
    NothingToPrune(l, s, at);
  }

  lemma BurstTakesAll(l: Limits, s: Buckets, key: string, keys: seq<string>, back: int)
    requires Pruned(l, s, back) == map[] && OtherKeys(l, s, key, keys)
    ensures var after := After(l, s, Burst(keys, back)); AllNow(after, back) && |after| == l.maxKeys && key !in after
  {
    hide Pruned, After, Burst, AllNow;
    AllNowNone(back);
    BurstStarts(l, s, keys, back);
    BurstFills(l, map[], keys, back);
  }

  lemma AllNowNone(at: int)
    ensures AllNow(map[], at)
  {
  }

  /** When RetryAfter reaches the window, other keys can take every place in the
      table at the very moment the caller comes back. */
  lemma WaitingIsNotEnough(l: Limits, s: Buckets, key: string, now: int, keys: seq<string>)
    requires JustDenied(l, s, key, now) && RetryAfter(l, s[key].tokens) >= l.window
    requires OtherKeys(l, s, key, keys)
    ensures !AlwaysAdmitted(l, s, key, now, now + RetryAfter(l, s[key].tokens))
  {
    hide OtherKeys, BucketsInv, RetryAfter, Pruned, After, Admits, AlwaysAdmitted, Meanwhile, Burst, AllNow;
    var back := now + RetryAfter(l, s[key].tokens);
    AllPruned(l, s, now, back);
    BurstIsOther(l, s, keys, key, now, back);
    BurstTakesAll(l, s, key, keys, back);
    FullOfOthers(l, After(l, s, Burst(keys, back)), key, back);
    TurnedAway(l, s, key, now, back, Burst(keys, back));
  }

  /** Enough other keys exist to take every place. */
  lemma OtherKeysExist(l: Limits, s: Buckets, key: string) returns (keys: seq<string>)
    ensures OtherKeys(l, s, key, keys)
  {
    keys := UnusedTexts(s.Keys + {key}, l.maxKeys);
  }

  /** Waiting exactly RetryAfter is enough, whatever other keys do, if and only if
      it is below the window. */
  lemma WaitingExact(l: Limits, s: Buckets, key: string, now: int)
    requires JustDenied(l, s, key, now)
    ensures var retry := RetryAfter(l, s[key].tokens);
            AlwaysAdmitted(l, s, key, now, now + retry) <==> retry < l.window
  {
    if RetryAfter(l, s[key].tokens) < l.window {
      WaitingIsEnough(l, s, key, now);
    } else {
      var keys := OtherKeysExist(l, s, key);
      WaitingIsNotEnough(l, s, key, now, keys);
    }
  }

  lemma WholeWindow(l: Limits)
    requires l.requests == 1
    ensures RetryAfter(l, 0.0) == l.window
  {
    var w := l.window as real;
    QuotientBack(1.0, w);
    QuotientBack(1.0, Rate(l));
    assert w * Rate(l) == 1.0 && Rate(l) * (1.0 / Rate(l)) == 1.0;
    SameFactor(Rate(l), w, 1.0 / Rate(l));
    assert (-w).Floor == -l.window;
  }

  lemma SameFactor(c: real, a: real, b: real)
    requires c > 0.0 && a * c == b * c
    ensures a == b
  {
    if a < b {
      ProductBelow(a, b, c);
    } else if b < a {
      ProductBelow(b, a, c);
    }
  }

  /** Such a denial happens on a new limiter with one request per window: the
      second of two requests at one moment is told to wait the whole window. */
  lemma WholeWindowDenial(l: Limits, key: string, now: int)
    requires l.requests == 1
    ensures var s := After(l, map[], [Arrival(key, now), Arrival(key, now)]);
            && Timed([Arrival(key, now), Arrival(key, now)], now)
            && JustDenied(l, s, key, now) && RetryAfter(l, s[key].tokens) == l.window
  {
    var a := Arrival(key, now);
    assert [a, a][1..] == [a] && [a][1..] == [];
    var first := Next(l, map[], key, now);
    FreshLevel(l, now);
    assert Pruned(l, map[], now) == map[];
    assert first == map[key := Bucket(0.0, now)];
    var second := Next(l, first, key, now);
    assert second == map[key := Bucket(0.0, now)];
    assert After(l, map[], [a, a]) == After(l, first, [a]) == After(l, second, []) == second;
    WholeWindow(l);
  }

  /** With two requests or more per window, RetryAfter is always below it. */
  lemma RetryBelowWindow(l: Limits, tokens: real)
    requires 0.0 <= tokens < 1.0 && l.requests >= 2 && l.window >= 2
    ensures RetryAfter(l, tokens) < l.window
  {
    HalfWindow(l);
    QuotientAtMost(1.0 - tokens, l.window as real / 2.0, Rate(l));
  }

  lemma QuotientAtMost(a: real, b: real, c: real)
    requires c > 0.0 && a <= b * c
    ensures a / c <= b
  {
    QuotientBack(a, c);
    if a / c > b {
      ProductBelow(b, a / c, c);
    }
  }

  lemma HalfWindow(l: Limits)
    requires l.requests >= 2
    ensures l.window as real / 2.0 * Rate(l) >= 1.0
  {
    QuotientBack(l.requests as real, l.window as real);
  }

  // ---- The limiter itself ----

  const MAX_KEY_BYTES := 512

  datatype LimitError = InvalidKey | Cancelled

  class MemoryRateLimiter {
    const limits: Limits
    var buckets: Buckets

    constructor (limits: Limits)
      ensures this.limits == limits && buckets == map[]
    {
      this.limits := limits;
      buckets := map[];
    }

    method PruneFullBuckets(now: int)
      modifies this
      ensures buckets == Pruned(limits, old(buckets), now)
    {
      var rest := buckets.Keys;
      while rest != {}
        invariant rest <= buckets.Keys
        invariant forall key :: key in buckets <==>
                    && key in old(buckets)
                    && (key in rest || now - old(buckets)[key].last < limits.window)
        invariant forall key | key in buckets :: buckets[key] == old(buckets)[key]
        decreases rest
      {
        var key :| key in rest;
        rest := rest - {key};
        if now - buckets[key].last >= limits.window {
          buckets := buckets - {key};
        }
      }
    }

    method CapacityDecision(now: int) returns (decision: Decision)
      ensures decision == Decision(false, limits.requests, 0, decision.retryAfter)
      ensures IsCapacityRetry(limits, buckets, now, decision.retryAfter)
    {
      var retryAfter := limits.window;
      var rest := buckets.Keys;
      while rest != {}
        invariant rest <= buckets.Keys && 1 <= retryAfter <= limits.window
        invariant forall key | key in buckets && key !in rest && buckets[key].last + limits.window > now ::
                    retryAfter <= buckets[key].last + limits.window - now
        invariant retryAfter == limits.window || exists key | key in buckets ::
                    retryAfter == buckets[key].last + limits.window - now
        decreases rest
      {
        var key :| key in rest;
        rest := rest - {key};
        var candidate := buckets[key].last + limits.window - now;
        if 0 < candidate < retryAfter {
          retryAfter := candidate;
        }
      }
      decision := Decision(false, limits.requests, 0, if retryAfter < 1 then 1 else retryAfter);
    }

    method Allow(cancelled: bool, rawKey: string, now: int) returns (r: Result<Decision, LimitError>)
      modifies this
      ensures r.Ok? <==> !cancelled && TrimSpace(rawKey) != "" && |TrimSpace(rawKey)| <= MAX_KEY_BYTES
      ensures r.Err? ==> buckets == old(buckets)
      ensures r.Ok? ==> buckets == Next(limits, old(buckets), TrimSpace(rawKey), now)
      ensures r.Ok? ==> Answers(limits, old(buckets), TrimSpace(rawKey), now, r.value)
    {
      if cancelled { return Err(Cancelled); }
      var key := TrimSpace(rawKey);
      if key == "" || |key| > MAX_KEY_BYTES { return Err(InvalidKey); }
      hide Answers, IsCapacityRetry, RetryAfter;
      var bucket := Bucket(Full(limits), now);
      FreshLevel(limits, now);
      if key in buckets {
        bucket := buckets[key];
      } else {
        PruneFullBuckets(now);
        if |buckets| >= limits.maxKeys {
          var refusal := CapacityDecision(now);
          RefusedAnswer(limits, old(buckets), key, now, refusal.retryAfter);
          return Ok(refusal);
        }
      }
      var level := Level(limits, bucket, now);
      if level >= 1.0 {
        buckets := buckets[key := Bucket(level - 1.0, now)];
        AllowedAnswer(limits, old(buckets), key, now);
        return Ok(Decision(true, limits.requests, (level - 1.0).Floor, 0));
      }
      buckets := buckets[key := Bucket(level, now)];
      DeniedAnswer(limits, old(buckets), key, now);
      r := Ok(Decision(false, limits.requests, 0, RetryAfter(limits, level)));
    }
  }
}
