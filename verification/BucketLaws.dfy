/** What the bucket arithmetic means: exact refills, exact waits, and when refills compose. */
module BucketLaws {
  import opened Clock
  import opened Products
  import opened Int64Words
  import opened TokenBuckets

  /** A normalized allowance whose products stay inside int64. */
  ghost predicate Allowance(count: int, capacity: int, interval: Duration) {
    && count >= 1
    && capacity >= 1
    && interval >= 1
    && interval + count <= MAX_INT64
    && capacity * count <= MAX_INT64
    && capacity * interval <= MAX_INT64
  }

  /** What every call keeps true of a bucket under one allowance. */
  ghost predicate Steady(b: Bucket, count: int, capacity: int, interval: Duration) {
    && b.ready
    && b.count == count
    && b.capacity == capacity
    && b.interval == interval
    && 0 <= b.tokens <= capacity
    && 0 <= b.residue
    && b.residue * count <= interval + count - 2
    && (b.tokens == capacity ==> b.residue == 0)
  }

  /** A configured bucket whose counters are sane, whatever allowance it had before. */
  ghost predicate Sane(b: Bucket) {
    && b.ready
    && Allowance(b.count, b.capacity, b.interval)
    && 0 <= b.tokens <= b.capacity
    && 0 <= b.residue
  }

  /** Whole tokens that elapsed time is worth. */
  function Earned(elapsed: Duration, count: int, interval: Duration): int
    requires interval >= 1
  {
    elapsed * count / interval
  }

  /** Whole nanoseconds that n tokens cost. */
  function Price(n: int, count: int, interval: Duration): Duration
    requires count >= 1
  {
    n * interval / count
  }

  /** n tokens are earned once n intervals of credit have built up. */
  lemma EarnedAtLeast(elapsed: Duration, count: int, interval: Duration, n: int)
    requires interval >= 1
    ensures Earned(elapsed, count, interval) >= n <==> elapsed * count >= n * interval
  {
    FloorAtLeast(elapsed * count, interval, n);
  }

  lemma SplitElapsed(elapsed: int, count: int, interval: int)
    requires elapsed >= 0 && count >= 1 && interval >= 1
    ensures Earned(elapsed, count, interval)
         == (elapsed / interval) * count + (elapsed % interval) * count / interval
  {
    var full, rem := elapsed / interval, elapsed % interval;
    var part := rem * count / interval;
    FloorAtLeast(rem * count, interval, part);
    FloorAtLeast(rem * count, interval, part + 1);
    assert elapsed == full * interval + rem;
    assert elapsed * count == full * count * interval + rem * count;
    var n := full * count + part;
    assert n * interval == full * count * interval + part * interval;
    assert (n + 1) * interval == full * count * interval + (part + 1) * interval;
    FloorIs(elapsed * count, interval, n);
  }

  /** The part of an interval earns fewer than count tokens. */
  lemma PartialInterval(rem: Duration, count: int, interval: Duration)
    requires 0 <= rem < interval && 1 <= count <= MAX_INT64
    ensures 0 <= rem * count / interval < count
    ensures MulDivFloor(rem, count, interval) == rem * count / interval
  {
    FloorAtLeast(rem * count, interval, 0);
    FloorAtLeast(rem * count, interval, count);
    assert rem * count < interval * count;
    MulDivFloorIsExact(rem, count, interval);
  }

  /** Whole tokens are the floor of elapsed*count/interval, capped at the limit. */
  lemma TokensEarnedIsExact(elapsed: Duration, count: int, interval: Duration, limit: int)
    requires count <= MAX_INT64
    ensures TokensEarned(elapsed, count, interval, limit) ==
            if elapsed <= 0 || count <= 0 || interval <= 0 || limit <= 0 then 0
            else Min(limit, Earned(elapsed, count, interval))
  {
    if elapsed > 0 && count > 0 && interval > 0 && limit > 0 {
      SplitElapsed(elapsed, count, interval);
      PartialInterval(elapsed % interval, count, interval);
      var full := elapsed / interval;
      if full >= limit {
        assert full * count >= limit;
      }
      hide MulDivFloor, Earned;
    }
  }

  /** Paying for the earned tokens never takes more time than has elapsed. */
  lemma PriceWithinElapsed(elapsed: Duration, count: int, interval: Duration)
    requires elapsed >= 0 && count >= 1 && interval >= 1
    ensures 0 <= Earned(elapsed, count, interval)
    ensures 0 <= Price(Earned(elapsed, count, interval), count, interval) <= elapsed
  {
    var earned := Earned(elapsed, count, interval);
    assert elapsed * count >= 0;
    EarnedAtLeast(elapsed, count, interval, 0);
    EarnedAtLeast(elapsed, count, interval, earned);
    assert 0 <= earned * interval <= elapsed * count;
    FloorAtLeast(earned * interval, count, 0);
    FloorAtLeast(earned * interval, count, elapsed + 1);
    assert elapsed * count < (elapsed + 1) * count;
  }

  /** The saturating divide of the refill does not saturate below capacity. */
  lemma ConsumedIsPrice(earned: int, count: int, capacity: int, interval: Duration)
    requires Allowance(count, capacity, interval) && 0 < earned <= capacity
    ensures MulDivFloor(earned, interval, count) == Price(earned, count, interval)
  {
    MulDivFloorIsExact(earned, interval, count);
    assert earned * interval <= capacity * interval;
    FloorAtLeast(earned * interval, count, MAX_INT64 + 1);
    assert (MAX_INT64 + 1) * count >= MAX_INT64 + 1;
  }

  /** Closed form of a refill: no guard, no saturation, no lost nanosecond below capacity. */
  lemma RefillIsExact(b: Bucket, now: Time)
    requires Sane(b)
    requires b.updated != ZERO_TIME && b.updated < now
    ensures var elapsed := now - b.updated + b.residue;
            var earned := Earned(elapsed, b.count, b.interval);
            Refilled(b, now) ==
            if earned >= b.capacity - b.tokens
            then b.(updated := now, tokens := b.capacity, residue := 0)
            else b.(updated := now, tokens := b.tokens + earned,
                    residue := elapsed - Price(earned, b.count, b.interval))
    ensures Earned(now - b.updated + b.residue, b.count, b.interval) >= 0
    ensures Refilled(b, now).residue >= 0
  {
    var elapsed := now - b.updated + b.residue;
    var room := b.capacity - b.tokens;
    var earned := Earned(elapsed, b.count, b.interval);
    PriceWithinElapsed(elapsed, b.count, b.interval);
    TokensEarnedIsExact(elapsed, b.count, b.interval, room);
    if 0 < earned < room {
      ConsumedIsPrice(earned, b.count, b.capacity, b.interval);
    }
    assert earned == 0 ==> Price(earned, b.count, b.interval) == 0;
    hide TokensEarned, MulDivFloor, Earned, Price, Allowance;
  }

  /** The whole-interval product inside tokensEarned stays an int64. */
  lemma WholeIntervalsFitInt64(elapsed: Duration, count: int, capacity: int, interval: Duration, room: int)
    requires Allowance(count, capacity, interval)
    requires 0 <= elapsed && room <= capacity && elapsed / interval < room
    ensures 0 <= elapsed / interval * count <= MAX_INT64
  {
    var full := elapsed / interval;
    FloorAtLeast(elapsed, interval, 0);
    assert full * count <= capacity * count;
  }

  /** The products inside waitForOne stay int64s. */
  lemma WaitFitsInt64(b: Bucket)
    requires Allowance(b.count, b.capacity, b.interval) && Steady(b, b.count, b.capacity, b.interval)
    ensures 0 <= b.residue * b.count <= MAX_INT64
    ensures b.interval - b.residue * b.count + b.count - 1 <= MAX_INT64
  {
    assert 0 <= b.residue * b.count;
  }

  // --- What configuring and refilling keep -----------------------------------------

  /** Configuring installs the allowance, clamps the tokens, and starts a new bucket full. */
  lemma ConfigureInstallsAllowance(b: Bucket, count: int, capacity: int, interval: Duration)
    requires Allowance(count, capacity, interval)
    requires b.ready ==> 0 <= b.tokens
    requires 0 <= b.residue
    ensures Sane(Configured(b, count, capacity, interval))
    ensures var c := Configured(b, count, capacity, interval);
            && c.count == count && c.capacity == capacity && c.interval == interval
            && c.tokens == (if b.ready then Min(b.tokens, capacity) else capacity)
            && c.residue == b.residue && c.updated == b.updated
  {
  }

  lemma ConfigureKeepsSteady(b: Bucket, count: int, capacity: int, interval: Duration)
    requires Allowance(count, capacity, interval)
    requires b == EMPTY_BUCKET || Steady(b, count, capacity, interval)
    ensures Steady(Configured(b, count, capacity, interval), count, capacity, interval)
    ensures Steady(b, count, capacity, interval) ==> Configured(b, count, capacity, interval) == b
  {
  }

  lemma ResidueBound(elapsed: Duration, count: int, interval: Duration)
    requires elapsed >= 0 && count >= 1 && interval >= 1
    ensures (elapsed - Price(Earned(elapsed, count, interval), count, interval)) * count
         <= interval + count - 2
  {
    var earned := Earned(elapsed, count, interval);
    EarnedAtLeast(elapsed, count, interval, earned + 1);
    var consumed := Price(earned, count, interval);
    FloorAtLeast(earned * interval, count, consumed + 1);
    assert (earned + 1) * interval == earned * interval + interval;
    assert (consumed + 1) * count == consumed * count + count;
    assert (elapsed - consumed) * count == elapsed * count - consumed * count;
    hide Earned, Price;
  }

  lemma RefillKeepsSteady(b: Bucket, now: Time, count: int, capacity: int, interval: Duration)
    requires Allowance(count, capacity, interval) && Steady(b, count, capacity, interval)
    ensures Steady(Refilled(b, now), count, capacity, interval)
    ensures Refilled(b, now).tokens >= b.tokens
  {
    if b.updated != ZERO_TIME && b.updated < now {
      RefillIsExact(b, now);
      ResidueBound(now - b.updated + b.residue, count, interval);
      hide Refilled, Earned, Price;
    }
  }

  // --- The wait after a refusal ----------------------------------------------------

  /** Whether a refill at t, at or after the last one, leaves a token to spend. */
  ghost predicate HasTokenAt(b: Bucket, t: Time) {
    Refilled(b, t).tokens >= 1
  }

  /** A bucket has a token once residue plus waiting pays for one. */
  lemma FirstToken(b: Bucket, t: Time)
    requires Sane(b) && b.updated != ZERO_TIME && b.updated < t
    ensures HasTokenAt(b, t)
       <==> b.tokens >= 1 || (t - b.updated + b.residue) * b.count >= b.interval
  {
    RefillIsExact(b, t);
    EarnedAtLeast(t - b.updated + b.residue, b.count, b.interval, 1);
    hide Refilled, Earned, Price;
  }

  /** With an empty bucket the wait is the fewest nanoseconds, at least one, that pay for a token. */
  lemma WaitPaysForOne(b: Bucket, waited: Duration)
    requires Sane(b) && b.tokens == 0 && waited >= 1
    ensures WaitForOne(b) >= 1
    ensures waited >= WaitForOne(b) <==> (waited + b.residue) * b.count >= b.interval
  {
    var need := b.interval - b.residue * b.count;
    assert (waited + b.residue) * b.count == waited * b.count + b.residue * b.count;
    assert (waited + 1) * b.count == waited * b.count + b.count;
    assert waited * b.count >= 1;
    if need > 0 {
      FloorAtLeast(need + b.count - 1, b.count, waited + 1);
      FloorAtLeast(need + b.count - 1, b.count, 1);
    }
  }

  /** waitForOne counts from the last refill to the first instant with a token. */
  lemma WaitIsExact(b: Bucket, t: Time)
    requires Sane(b) && b.updated != ZERO_TIME && b.updated <= t
    ensures HasTokenAt(b, t) <==> t >= b.updated + WaitForOne(b)
    ensures WaitForOne(b) >= 0 && (WaitForOne(b) == 0 <==> b.tokens >= 1)
  {
    if b.tokens == 0 {
      WaitPaysForOne(b, Max(1, t - b.updated));
    }
    if b.updated < t {
      FirstToken(b, t);
      hide HasTokenAt;
    }
  }

  /** The wait counts from the last refill, so it is enough from now exactly if now is not before that. */
  lemma WaitIsEnoughIffClockCaughtUp(b: Bucket, now: Time)
    requires Sane(b) && b.updated != ZERO_TIME && b.tokens < 1
    ensures HasTokenAt(b, now + WaitForOne(b)) <==> b.updated <= now
  {
    WaitIsExact(b, b.updated);
    if b.updated <= now + WaitForOne(b) {
      WaitIsExact(b, now + WaitForOne(b));
      hide HasTokenAt;
    }
    hide WaitForOne;
  }

  /** A refill keeps the allowance and the counters sane, and moves the clock to s. */
  lemma RefillKeepsSane(b: Bucket, s: Time)
    requires Sane(b) && b.updated != ZERO_TIME && b.updated <= s
    ensures Sane(Refilled(b, s)) && Refilled(b, s).updated == s
    ensures var r := Refilled(b, s);
            r.count == b.count && r.capacity == b.capacity && r.interval == b.interval
    ensures Refilled(b, s).tokens >= b.tokens
  {
    if b.updated < s {
      RefillIsExact(b, s);
      hide Earned, Price, Allowance, Refilled;
    }
  }

  /** A refill that earns nothing into an empty bucket keeps all the elapsed time. */
  lemma EmptyRefillKeepsProgress(b: Bucket, s: Time)
    requires Sane(b) && b.updated != ZERO_TIME && b.updated < s
    requires Refilled(b, s).tokens == 0
    ensures b.tokens == 0
    ensures Refilled(b, s).residue == s - b.updated + b.residue
  {
    RefillIsExact(b, s);
    EarnedAtLeast(s - b.updated + b.residue, b.count, b.interval, 1);
    assert Price(0, b.count, b.interval) == 0;
    hide Earned, Price, Allowance, Refilled;
  }

  /** An earlier refill neither brings a token forward nor delays it. */
  lemma EarlierRefillKeepsWait(b: Bucket, s: Time, t: Time)
    requires Sane(b) && b.updated != ZERO_TIME
    requires b.updated <= s <= t
    requires s != ZERO_TIME
    ensures HasTokenAt(Refilled(b, s), t) <==> HasTokenAt(b, t)
  {
    if b.updated < s < t {
      var r := Refilled(b, s);
      RefillKeepsSane(b, s);
      FirstToken(b, s);
      FirstToken(b, t);
      FirstToken(r, t);
      if r.tokens == 0 {
        EmptyRefillKeepsProgress(b, s);
      } else {
        OrderTimes(s - b.updated + b.residue, t - b.updated + b.residue, b.count);
      }
      hide Refilled, Allowance, HasTokenAt;
    } else if b.updated < s {
      RefillKeepsSane(b, s);
      hide Allowance;
    }
  }

  // --- What callers and clocks cannot break ----------------------------------------------

  /** A setting that is not positive works as one token, a burst of one, or a minute. */
  lemma NothingConfiguredIsOneAMinute(b: Bucket, count: int, capacity: int, interval: Duration)
    ensures Configured(b, Max(count, 1), Max(capacity, 1), if interval > 0 then interval else 60_000_000_000)
         == Configured(b, count, capacity, interval)
    ensures Configured(b, count, capacity, interval).count == Max(count, 1)
    ensures Configured(b, count, capacity, interval).capacity == Max(capacity, 1)
    ensures Configured(b, count, capacity, interval).interval == if interval > 0 then interval else 60_000_000_000
  {
  }

  /** A clock that runs back earns nothing: not then, and not when it has caught up. */
  lemma BackwardClockGainsNothing(b: Bucket, back: Time, t: Time)
    requires b.updated != ZERO_TIME && back <= b.updated
    ensures Refilled(Refilled(b, back), t) == Refilled(b, t) && Refilled(b, back).tokens == b.tokens
  {
  }
}
