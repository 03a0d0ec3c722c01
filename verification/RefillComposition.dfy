/** When refilling often gives the same bucket as refilling once. */
module RefillComposition {
  import opened Clock
  import opened Products
  import opened Int64Words
  import opened TokenBuckets
  import opened BucketLaws

  /** The fraction of a nanosecond lost per token never adds up to a whole one below capacity. */
  predicate FractionsFit(count: int, capacity: int, interval: Duration)
    requires count >= 1
  {
    interval % count * capacity <= count
  }

  /**
   What rounds never shows. With at most a token per nanosecond, its fractions fit. With more, every
   nanosecond is a whole number of tokens, or two nanoseconds fill the bucket.
   */
  predicate RoundingFits(count: int, capacity: int, interval: Duration)
    requires count >= 1 && interval >= 1
  {
    if count <= interval then FractionsFit(count, capacity, interval)
    else count % interval == 0 || capacity <= Earned(2, count, interval)
  }

  ghost predicate Composes(count: int, capacity: int, interval: Duration) {
    forall b, s, t ::
      && Sane(b) && b.count == count && b.capacity == capacity && b.interval == interval
      && ZERO_TIME < b.updated <= s <= t
      ==> Refilled(Refilled(b, s), t) == Refilled(b, t)
  }

  /** A bucket refilled at each instant in turn. */
  function RefilledAt(b: Bucket, times: seq<Time>): Bucket
    decreases |times|
  {
    if times == [] then b else RefilledAt(Refilled(b, times[0]), times[1..])
  }

  lemma Division(count: int, interval: Duration, n: int)
    requires count >= 1
    ensures n * interval == n * (interval / count) * count + n * (interval % count)
  {
    assert interval == (interval / count) * count + interval % count;
  }

  lemma RoundingUpTo(count: int, capacity: int, interval: Duration, n: int)
    requires count >= 1 && interval >= 1 && 0 <= n <= capacity
    requires FractionsFit(count, capacity, interval)
    ensures 0 <= n * (interval % count) <= count
    ensures n < capacity ==> n * (interval % count) < count
  {
    var r := interval % count;
    if n < capacity && r > 0 {
      assert (n + 1) * r <= capacity * r;
      assert n * r < (n + 1) * r;
    } else {
      assert n * r <= capacity * r;
    }
  }

  /** Credit for whole time units plus a part of one, in nanoseconds. */
  lemma CreditThreshold(elapsed: Duration, count: int, whole: Duration, part: int)
    requires count >= 1 && 0 <= part <= count
    ensures elapsed * count >= whole * count + part
       <==> elapsed >= whole + (if part == 0 then 0 else 1)
  {
    assert (elapsed - whole) * count == elapsed * count - whole * count;
    var over := elapsed - whole;
    assert over >= 1 ==> over * count >= count;
    assert over < 0 ==> over * count < 0;
    assert over == 0 ==> over * count == 0;
  }

  /** The n-th token falls due one nanosecond after n whole token times, or exactly then. */
  lemma TokenDue(elapsed: Duration, count: int, capacity: int, interval: Duration, n: int)
    requires count >= 1 && interval >= 1 && 1 <= n <= capacity
    requires FractionsFit(count, capacity, interval)
    ensures Earned(elapsed, count, interval) >= n
       <==> elapsed >= n * (interval / count) + (if interval % count == 0 then 0 else 1)
  {
    RoundingUpTo(count, capacity, interval, n);
    hide FractionsFit;
    var r := interval % count;
    EarnedAtLeast(elapsed, count, interval, n);
    hide Earned;
    Division(count, interval, n);
    assert r > 0 ==> n * r > 0;
    CreditThreshold(elapsed, count, n * (interval / count), n * r);
  }

  lemma PriceIsWhole(count: int, capacity: int, interval: Duration, n: int)
    requires count >= 1 && interval >= 1 && 0 <= n < capacity
    requires FractionsFit(count, capacity, interval)
    ensures Price(n, count, interval) == n * (interval / count)
  {
    Division(count, interval, n);
    RoundingUpTo(count, capacity, interval, n);
    var whole := n * (interval / count);
    assert (whole + 1) * count == whole * count + count;
    FloorIs(n * interval, count, whole);
  }

  /** Tokens already paid for can be taken off the clock without changing the rest. */
  lemma EarnedAfterPaying(elapsed: Duration, count: int, capacity: int, interval: Duration, paid: int, more: int)
    requires count >= 1 && interval >= 1 && 0 <= paid && 1 <= more && paid + more <= capacity
    requires FractionsFit(count, capacity, interval)
    ensures Earned(elapsed - paid * (interval / count), count, interval) >= more
       <==> Earned(elapsed, count, interval) >= paid + more
  {
    hide Earned, FractionsFit;
    var q := interval / count;
    TokenDue(elapsed - paid * q, count, capacity, interval, more);
    TokenDue(elapsed, count, capacity, interval, paid + more);
    SumTimes(paid, more, q);
  }

  /** The remaining tokens, counted exactly below capacity. */
  lemma EarnedRest(early: Duration, late: Duration, count: int, capacity: int, interval: Duration, room: int)
    requires count >= 1 && interval >= 1 && 0 <= early <= late && room <= capacity
    requires FractionsFit(count, capacity, interval)
    requires Earned(early, count, interval) < room
    ensures var paid := Earned(early, count, interval);
            var rest := Earned(late - paid * (interval / count), count, interval);
            && 0 <= paid <= Earned(late, count, interval)
            && (rest >= room - paid <==> Earned(late, count, interval) >= room)
            && (Earned(late, count, interval) < room ==> paid + rest == Earned(late, count, interval))
  {
    var paid := Earned(early, count, interval);
    var all := Earned(late, count, interval);
    PriceWithinElapsed(early, count, interval);
    PriceIsWhole(count, capacity, interval, paid);
    EarnedAtLeast(early, count, interval, paid);
    EarnedAtLeast(late, count, interval, paid);
    OrderTimes(early, late, count);
    EarnedAfterPaying(late, count, capacity, interval, paid, room - paid);
    if all < room {
      EarnedAfterPaying(late, count, capacity, interval, paid, all + 1 - paid);
      if all > paid {
        EarnedAfterPaying(late, count, capacity, interval, paid, all - paid);
      } else {
        PriceWithinElapsed(late - paid * (interval / count), count, interval);
      }
    }
    hide Earned, FractionsFit, Price;
  }

  /** The later refill tops up what the earlier one left below capacity. */
  lemma ComposesBelowCapacity(b: Bucket, s: Time, t: Time)
    requires Sane(b) && ZERO_TIME < b.updated < s < t
    requires FractionsFit(b.count, b.capacity, b.interval)
    requires Earned(s - b.updated + b.residue, b.count, b.interval) < b.capacity - b.tokens
    ensures Refilled(Refilled(b, s), t) == Refilled(b, t)
  {
    hide Refilled, Earned, Price, FractionsFit;
    var q := b.interval / b.count;
    var early, late := s - b.updated + b.residue, t - b.updated + b.residue;
    var room := b.capacity - b.tokens;
    var paid, all := Earned(early, b.count, b.interval), Earned(late, b.count, b.interval);
    RefillIsExact(b, s);
    PriceIsWhole(b.count, b.capacity, b.interval, paid);
    var r := Refilled(b, s);
    assert r == b.(updated := s, tokens := b.tokens + paid, residue := early - paid * q);
    RefillIsExact(b, t);
    RefillIsExact(r, t);
    var rest := Earned(late - paid * q, b.count, b.interval);
    assert t - r.updated + r.residue == late - paid * q;
    EarnedRest(early, late, b.count, b.capacity, b.interval, room);
    if all < room {
      PriceIsWhole(b.count, b.capacity, b.interval, all);
      PriceIsWhole(b.count, b.capacity, b.interval, rest);
      SumTimes(paid, rest, q);
    }
    hide Allowance;
  }

  lemma SlowComposesAt(b: Bucket, s: Time, t: Time)
    requires Sane(b) && ZERO_TIME < b.updated <= s <= t
    requires FractionsFit(b.count, b.capacity, b.interval)
    ensures Refilled(Refilled(b, s), t) == Refilled(b, t)
  {
    if b.updated < s < t {
      var early, late := s - b.updated + b.residue, t - b.updated + b.residue;
      var paid := Earned(early, b.count, b.interval);
      if paid < b.capacity - b.tokens {
        ComposesBelowCapacity(b, s, t);
      } else {
        RefillIsExact(b, s);
        RefillIsExact(b, t);
        EarnedAtLeast(early, b.count, b.interval, paid);
        EarnedAtLeast(late, b.count, b.interval, paid);
        OrderTimes(early, late, b.count);
        RefillIsExact(Refilled(b, s), t);
      }
      hide Refilled, Earned, Price, Allowance, FractionsFit;
    } else {
      RefillKeepsSane(b, s);
      hide Earned, Price, Allowance, FractionsFit;
    }
  }

  /** With a whole number of tokens per nanosecond, all time is paid out at once. */
  lemma WholeTokensPay(elapsed: Duration, count: int, interval: Duration)
    requires interval >= 1 && count >= 1 && count % interval == 0 && elapsed >= 0
    ensures Earned(elapsed, count, interval) == elapsed * (count / interval)
    ensures Price(elapsed * (count / interval), count, interval) == elapsed
  {
    var each := count / interval;
    assert count == each * interval;
    assert elapsed * count == elapsed * each * interval;
    SumTimes(elapsed * each, 1, interval);
    FloorIs(elapsed * count, interval, elapsed * each);
    SumTimes(elapsed, 1, count);
    FloorIs(elapsed * each * interval, count, elapsed);
  }

  lemma WholeTokensCompose(b: Bucket, s: Time, t: Time)
    requires Sane(b) && ZERO_TIME < b.updated < s < t && b.count % b.interval == 0
    ensures Refilled(Refilled(b, s), t) == Refilled(b, t)
  {
    var early, late, each := s - b.updated + b.residue, t - b.updated + b.residue, b.count / b.interval;
    FloorAtLeast(b.count, b.interval, 0);
    WholeTokensPay(early, b.count, b.interval);
    WholeTokensPay(late, b.count, b.interval);
    WholeTokensPay(t - s, b.count, b.interval);
    SumTimes(early, t - s, each);
    OrderTimes(0, t - s, each);
    RefillIsExact(b, s);
    RefillIsExact(b, t);
    RefillIsExact(Refilled(b, s), t);
    hide Refilled, Earned, Price, Allowance;
  }

  /** What one nanosecond earns, and leaves over, when a whole number does not fit it. */
  lemma OneNanosecond(count: int, interval: Duration)
    requires 1 <= interval < count && count % interval != 0
    ensures Earned(1, count, interval) >= 1 && Price(Earned(1, count, interval), count, interval) == 0
  {
    var each := count / interval;
    FloorAtLeast(count, interval, 1);
    assert each * interval + count % interval == count;
    OrderTimes(0, each, interval);
    FloorIs(each * interval, count, 0);
  }

  lemma LongerEarnsMore(early: Duration, late: Duration, count: int, interval: Duration)
    requires early <= late && count >= 1 && interval >= 1
    ensures Earned(early, count, interval) <= Earned(late, count, interval)
  {
    OrderTimes(early, late, count);
    EarnedAtLeast(early, count, interval, Earned(early, count, interval));
    EarnedAtLeast(late, count, interval, Earned(early, count, interval));
  }

  /** Two nanoseconds or more, stored or waited, fill the bucket. */
  lemma FillsAt(b: Bucket, t: Time)
    requires Sane(b) && ZERO_TIME < b.updated < t && t - b.updated + b.residue >= 2
    requires b.capacity <= Earned(2, b.count, b.interval)
    ensures Refilled(b, t) == b.(updated := t, tokens := b.capacity, residue := 0)
  {
    LongerEarnsMore(2, t - b.updated + b.residue, b.count, b.interval);
    RefillIsExact(b, t);
    hide Refilled, Earned, Price, Allowance;
  }

  lemma FullStays(b: Bucket, t: Time)
    requires Sane(b) && ZERO_TIME < b.updated < t && b.tokens == b.capacity
    ensures Refilled(b, t) == b.(updated := t, residue := 0)
  {
    RefillIsExact(b, t);
    hide Refilled, Earned, Price, Allowance;
  }

  /** One nanosecond fills the bucket, or stays stored. */
  lemma FirstNanosecond(b: Bucket, s: Time)
    requires Sane(b) && ZERO_TIME < b.updated < s && s - b.updated + b.residue == 1
    requires b.interval < b.count && b.count % b.interval != 0
    ensures var r := Refilled(b, s);
            && r.updated == s && (r.tokens == b.capacity || r.residue == 1)
            && r == b.(updated := s, tokens := r.tokens, residue := r.residue)
  {
    OneNanosecond(b.count, b.interval);
    RefillIsExact(b, s);
    hide Refilled, Earned, Price, Allowance;
  }

  /** Where two nanoseconds fill the bucket, only a first one can leave it short of full. */
  lemma QuickFillsCompose(b: Bucket, s: Time, t: Time)
    requires Sane(b) && ZERO_TIME < b.updated < s < t && b.interval < b.count && b.count % b.interval != 0
    requires b.capacity <= Earned(2, b.count, b.interval)
    ensures Refilled(Refilled(b, s), t) == Refilled(b, t)
  {
    hide Refilled, Earned, Allowance;
    var r := Refilled(b, s);
    RefillKeepsSane(b, s);
    FillsAt(b, t);
    if s - b.updated + b.residue >= 2 {
      FillsAt(b, s);
    } else {
      FirstNanosecond(b, s);
    }
    if r.tokens == r.capacity {
      FullStays(r, t);
    } else {
      FillsAt(r, t);
    }
  }

  lemma ComposesAt(b: Bucket, s: Time, t: Time)
    requires Sane(b) && ZERO_TIME < b.updated <= s <= t
    requires RoundingFits(b.count, b.capacity, b.interval)
    ensures Refilled(Refilled(b, s), t) == Refilled(b, t)
  {
    if b.count <= b.interval {
      SlowComposesAt(b, s, t);
    } else if b.updated < s < t {
      if b.count % b.interval == 0 {
        WholeTokensCompose(b, s, t);
      } else {
        QuickFillsCompose(b, s, t);
      }
    } else {
      RefillKeepsSane(b, s);
    }
    hide Earned, Price, Allowance, FractionsFit;
  }

  /** What rounds is on the side of the caller: paying for n tokens costs at most n of those to come. */
  lemma PayingLosesNoToken(elapsed: Duration, count: int, interval: Duration, n: int)
    requires count >= 1 && interval >= 1
    ensures Earned(elapsed - Price(n, count, interval), count, interval) >= Earned(elapsed, count, interval) - n
  {
    var all := Earned(elapsed, count, interval);
    EarnedAtLeast(elapsed, count, interval, all);
    EarnedAtLeast(elapsed - Price(n, count, interval), count, interval, all - n);
    FloorAtLeast(n * interval, count, Price(n, count, interval));
    SumTimes(elapsed - Price(n, count, interval), Price(n, count, interval), count);
    SumTimes(all - n, n, interval);
    hide Earned;
  }

  /** Whatever the allowance, a refill in between never costs a token. */
  lemma ExtraRefillCostsNothing(b: Bucket, s: Time, t: Time)
    requires Sane(b) && ZERO_TIME < b.updated <= s <= t
    ensures Refilled(Refilled(b, s), t).tokens >= Refilled(b, t).tokens
  {
    RefillKeepsSane(b, s);
    if b.updated < s < t {
      var early, late := s - b.updated + b.residue, t - b.updated + b.residue;
      RefillIsExact(b, s);
      RefillIsExact(b, t);
      RefillIsExact(Refilled(b, s), t);
      PayingLosesNoToken(late, b.count, b.interval, Earned(early, b.count, b.interval));
    }
    hide Refilled, Earned, Price, Allowance;
  }

  /** Nor do any number of them. */
  lemma {:induction false} ExtraRefillsCostNothing(b: Bucket, times: seq<Time>)
    requires Sane(b) && ZERO_TIME < b.updated
    requires times != [] && b.updated <= times[0]
    requires forall i, j :: 0 <= i < j < |times| ==> times[i] <= times[j]
    ensures RefilledAt(b, times).tokens >= Refilled(b, times[|times| - 1]).tokens
    decreases |times|
  {
    hide Refilled, Allowance;
    if |times| > 1 {
      RefillKeepsSane(b, times[0]);
      ExtraRefillsCostNothing(Refilled(b, times[0]), times[1..]);
      ExtraRefillCostsNothing(b, times[0], times[|times| - 1]);
    } else {
      assert times[1..] == [];
    }
  }

  /** By induction over the instants. */
  lemma {:induction false} RefillsAtAnyInstantsCompose(b: Bucket, times: seq<Time>)
    requires Sane(b) && ZERO_TIME < b.updated
    requires RoundingFits(b.count, b.capacity, b.interval)
    requires times != [] && b.updated <= times[0]
    requires forall i, j :: 0 <= i < j < |times| ==> times[i] <= times[j]
    ensures RefilledAt(b, times) == Refilled(b, times[|times| - 1])
    decreases |times|
  {
    hide Refilled, RoundingFits, Allowance;
    if |times| > 1 {
      RefillKeepsSane(b, times[0]);
      RefillsAtAnyInstantsCompose(Refilled(b, times[0]), times[1..]);
      ComposesAt(b, times[0], times[|times| - 1]);
    } else {
      assert times[1..] == [];
    }
  }

  /** Where the rounding does not fit, m is the first token it brings forward. */
  lemma FirstGain(count: int, capacity: int, interval: Duration) returns (m: int)
    requires Allowance(count, capacity, interval) && count <= interval
    requires !FractionsFit(count, capacity, interval)
    ensures interval % count > 0 && interval / count >= 1
    ensures 2 <= m <= capacity
    ensures (m - 1) * (interval % count) <= count < m * (interval % count)
  {
    var r := interval % count;
    FloorAtLeast(interval, count, 1);
    assert r > 0;
    m := count / r + 1;
    FloorAtLeast(count, r, m);
    FloorAtLeast(count, r, 1);
    FloorAtLeast(count, r, m - 1);
    FloorAtLeast(count, r, capacity);
  }

  lemma OneTokenEarly(count: int, interval: Duration)
    requires 1 <= count <= interval && interval % count > 0
    ensures Earned(interval / count + 1, count, interval) == 1
    ensures Price(1, count, interval) == interval / count
  {
    var q := interval / count;
    FloorAtLeast(interval, count, 1);
    EarnedAtLeast(q + 1, count, interval, 1);
    EarnedAtLeast(q + 1, count, interval, 2);
    hide Earned;
    Division(count, interval, 1);
    SumTimes(q, 1, count);
    assert q * count >= count;
  }

  lemma GainAt(count: int, interval: Duration, m: int)
    requires 1 <= count <= interval && m >= 2
    requires (m - 1) * (interval % count) <= count < m * (interval % count)
    ensures var q := interval / count;
            && Earned((m - 1) * q + 1, count, interval) >= m - 1
            && Earned(m * q + 1, count, interval) < m
  {
    var q := interval / count;
    Division(count, interval, m);
    Division(count, interval, m - 1);
    EarnedAtLeast((m - 1) * q + 1, count, interval, m - 1);
    EarnedAtLeast(m * q + 1, count, interval, m);
    assert ((m - 1) * q + 1) * count == (m - 1) * q * count + count;
    assert (m * q + 1) * count == m * q * count + count;
    hide Earned;
  }

  /** Two refills that give more tokens than the one at the later instant alone. */
  lemma FractionsGain(count: int, capacity: int, interval: Duration)
    requires Allowance(count, capacity, interval) && count <= interval
    requires !FractionsFit(count, capacity, interval)
    ensures !Composes(count, capacity, interval)
  {
    var m := FirstGain(count, capacity, interval);
    hide Refilled, Earned, Price, FractionsFit;
    var q := interval / count;
    OneTokenEarly(count, interval);
    GainAt(count, interval, m);
    var b := Bucket(0, 0, 1, count, capacity, interval, true);
    var s := 1 + (q + 1);
    assert m * q == (m - 1) * q + q;
    assert (m - 1) * q >= q;
    var t := 1 + (m * q + 1);
    RefillIsExact(b, s);
    RefillIsExact(b, t);
    var r := Refilled(b, s);
    assert r == b.(updated := s, tokens := 1, residue := 1);
    RefillIsExact(r, t);
    assert t - s + 1 == (m - 1) * q + 1;
    hide Allowance;
    assert Refilled(r, t).tokens >= m > Refilled(b, t).tokens;
  }

  /** A nanosecond that is earned twice. */
  lemma NanosecondGains(count: int, capacity: int, interval: Duration)
    requires Allowance(count, capacity, interval) && interval < count && count % interval != 0
    requires Earned(2, count, interval) < capacity
    ensures !Composes(count, capacity, interval)
  {
    var b := Bucket(0, 0, 1, count, capacity, interval, true);
    OneNanosecond(count, interval);
    LongerEarnsMore(1, 2, count, interval);
    RefillIsExact(b, 2);
    RefillIsExact(b, 3);
    var r := Refilled(b, 2);
    assert r == b.(updated := 2, tokens := Earned(1, count, interval), residue := 1);
    RefillIsExact(r, 3);
    hide Refilled, Earned, Price, Allowance;
    assert Refilled(r, 3).tokens > Refilled(b, 3).tokens;
  }

  /** Refilling at any earlier instants gives the bucket of one refill, exactly when rounding fits. */
  lemma RefillsComposeIffRoundingFits(count: int, capacity: int, interval: Duration)
    requires Allowance(count, capacity, interval)
    ensures Composes(count, capacity, interval) <==> RoundingFits(count, capacity, interval)
  {
    if RoundingFits(count, capacity, interval) {
      hide Refilled, RoundingFits;
      forall b, s, t |
        && Sane(b) && b.count == count && b.capacity == capacity && b.interval == interval
        && ZERO_TIME < b.updated <= s <= t
        ensures Refilled(Refilled(b, s), t) == Refilled(b, t)
      {
        ComposesAt(b, s, t);
      }
    } else if count <= interval {
      FractionsGain(count, capacity, interval);
    } else {
      NanosecondGains(count, capacity, interval);
    }
  }
}
