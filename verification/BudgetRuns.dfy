/** Whole runs of the eviction budgets: rate bounds in every window, and conservation. */
module BudgetRuns {
  import opened Clock
  import opened Products
  import opened Int64Words
  import opened Names
  import opened EvictionPolicies
  import opened TokenBuckets
  import opened BucketLaws
  import opened EvictionBudgets

  datatype Call = Call(lossy: bool, node: NodeName, now: Time)

  /** One of the buckets a call spends from. */
  datatype Scope = NodeScope(lossy: bool, node: NodeName) | GlobalScope(lossy: bool) {
    predicate Covers(c: Call) {
      c.lossy == lossy && (NodeScope? ==> c.node == node)
    }

    function BucketIn(b: Budgets): Bucket {
      match this
      case NodeScope(l, n) => b.Class(l).Node(n)
      case GlobalScope(l) => b.Class(l).global
    }

    function Count(p: EvictionPolicy): int {
      if NodeScope? then p.Budget(lossy).perNode else p.Budget(lossy).global
    }

    function Capacity(p: EvictionPolicy): int {
      if NodeScope? then p.Budget(lossy).burstPerNode else p.Budget(lossy).burstGlobal
    }

    function Interval(p: EvictionPolicy): Duration {
      p.Budget(lossy).interval
    }

    ghost predicate Usable(p: EvictionPolicy) {
      Allowance(Count(p), Capacity(p), Interval(p))
    }

    /** Nanoseconds per token, rounded down. */
    function TokenTime(p: EvictionPolicy): Duration
      requires Count(p) >= 1
    {
      Interval(p) / Count(p)
    }
  }

  function Step(b: Budgets, c: Call, p: EvictionPolicy): Spend {
    Take(b, c.lossy, c.node, c.now, p)
  }

  /** The buckets after a run of calls. */
  function After(b: Budgets, calls: seq<Call>, p: EvictionPolicy): Budgets
    decreases |calls|
  {
    if calls == [] then b else After(Step(b, calls[0], p).budgets, calls[1..], p)
  }

  /** How many calls of a run were granted in a scope. */
  function Granted(b: Budgets, calls: seq<Call>, p: EvictionPolicy, scope: Scope): nat
    decreases |calls|
  {
    if calls == [] then 0
    else
      var s := Step(b, calls[0], p);
      (if s.granted && scope.Covers(calls[0]) then 1 else 0) + Granted(s.budgets, calls[1..], p, scope)
  }

  ghost predicate Ordered(calls: seq<Call>) {
    && (forall i | 0 <= i < |calls| :: ZERO_TIME < calls[i].now)
    && (forall i, j | 0 <= i < j < |calls| :: calls[i].now <= calls[j].now)
  }

  /** A bucket that is either unused or steady, and was last refilled by t. */
  ghost predicate Known(b: Bucket, scope: Scope, p: EvictionPolicy, t: Time) {
    b == EMPTY_BUCKET ||
    (Steady(b, scope.Count(p), scope.Capacity(p), scope.Interval(p)) && ZERO_TIME < b.updated <= t)
  }

  // --- One call --------------------------------------------------------------------

  /** A call spends at most one token, the same in both of its scopes, and none elsewhere. */
  lemma StepSpendsBothScopes(b: Budgets, c: Call, p: EvictionPolicy, scope: Scope)
    ensures var s := Step(b, c, p);
            scope.BucketIn(s.budgets) ==
            if !scope.Covers(c) then scope.BucketIn(b)
            else
              var found := BucketAt(scope.BucketIn(b), scope.Count(p), scope.Capacity(p), scope.Interval(p), c.now);
              if s.granted then found.(tokens := found.tokens - 1) else found
    ensures Step(b, c, p).granted && scope.Covers(c) ==>
              BucketAt(scope.BucketIn(b), scope.Count(p), scope.Capacity(p), scope.Interval(p), c.now).tokens >= 1
  {
    hide BucketAt, WaitForOne;
  }

  /** What a token and a nanosecond are worth against each other, and what storing time costs. */
  datatype Worth = Worth(token: int, time: int, discount: int) {
    /** The worth of stored time, once the discount is taken off. */
    function Stored(residue: Duration): int {
      Max(0, residue * time - discount)
    }

    predicate Natural() {
      token >= 0 && time >= 0 && discount >= 0
    }
  }

  /** Tokens and residue of a bucket at t, by their worth. A bucket not used yet is full. */
  function Credit(b: Bucket, capacity: int, w: Worth, t: Time): int {
    if !b.ready then capacity * w.token
    else b.tokens * w.token + w.Stored(b.residue) + (t - b.updated) * w.time
  }

  /** A residue that a steady bucket can hold. */
  predicate Storable(residue: Duration, count: int, interval: Duration) {
    0 <= residue && residue * count <= interval + count - 2
  }

  /** Trading a stored residue and some time for what they earn creates no worth. */
  predicate FairAt(w: Worth, count: int, capacity: int, interval: Duration, residue: Duration, waited: Duration)
    requires count >= 1 && interval >= 1
  {
    var elapsed := residue + waited;
    var earned := Earned(elapsed, count, interval);
    var before := w.Stored(residue) + waited * w.time;
    && (earned < capacity ==> earned * w.token + w.Stored(elapsed - Price(earned, count, interval)) <= before)
    && Min(earned, capacity) * w.token <= before
  }

  /** Earning tokens, whether or not the bucket fills up, never creates worth. */
  ghost predicate Fair(w: Worth, count: int, capacity: int, interval: Duration)
    requires count >= 1 && interval >= 1
  {
    && w.Natural()
    && forall residue, waited | Storable(residue, count, interval) && waited >= 1 ::
         FairAt(w, count, capacity, interval, residue, waited)
  }

  /** A refill turns time into tokens without creating worth. */
  lemma RefillKeepsWorth(b: Bucket, now: Time, w: Worth)
    requires Sane(b) && Storable(b.residue, b.count, b.interval) && b.updated != ZERO_TIME && b.updated <= now
    requires Fair(w, b.count, b.capacity, b.interval)
    ensures Credit(Refilled(b, now), b.capacity, w, now) <= Credit(b, b.capacity, w, now)
  {
    if b.updated < now {
      RefillIsExact(b, now);
      var waited, room := now - b.updated, b.capacity - b.tokens;
      var earned := Earned(waited + b.residue, b.count, b.interval);
      assert FairAt(w, b.count, b.capacity, b.interval, b.residue, waited);
      assert b.residue + waited == waited + b.residue;
      hide Refilled, Earned, Price, Allowance, Worth.Stored;
      if earned >= room {
        SumTimes(b.tokens, room, w.token);
        OrderTimes(room, Min(earned, b.capacity), w.token);
      } else {
        SumTimes(b.tokens, earned, w.token);
      }
      hide Fair;
    }
  }

  /** What a call finds in a bucket: steady, refilled now, and worth no more than before. */
  lemma FoundBucket(b: Bucket, now: Time, scope: Scope, p: EvictionPolicy, w: Worth)
    requires scope.Usable(p) && Known(b, scope, p, now) && ZERO_TIME < now
    requires Fair(w, scope.Count(p), scope.Capacity(p), scope.Interval(p))
    ensures var r := BucketAt(b, scope.Count(p), scope.Capacity(p), scope.Interval(p), now);
            && r.updated == now
            && Steady(r, scope.Count(p), scope.Capacity(p), scope.Interval(p))
            && Credit(r, scope.Capacity(p), w, now) <= Credit(b, scope.Capacity(p), w, now)
  {
    var count, capacity, interval := scope.Count(p), scope.Capacity(p), scope.Interval(p);
    ConfigureKeepsSteady(b, count, capacity, interval);
    RefillKeepsSteady(Configured(b, count, capacity, interval), now, count, capacity, interval);
    if b != EMPTY_BUCKET {
      RefillKeepsWorth(b, now, w);
      RefillKeepsSane(b, now);
      hide Refilled, Configured, Allowance, Fair, Credit;
    } else {
      hide Fair;
    }
  }

  /** One where the count does not divide the interval, and a token takes a fraction longer than its rounded time. */
  function Fraction(count: int, interval: Duration): int
    requires count >= 1
  {
    if interval % count == 0 then 0 else 1
  }

  /** The worth that makes a token its rounded time, and the first nanosecond stored worth nothing if that is short. */
  function Rounded(count: int, interval: Duration): Worth
    requires count >= 1
  {
    Worth(interval / count, 1, Fraction(count, interval))
  }

  lemma ResidueIsShort(residue: int, count: int, interval: Duration)
    requires count >= 1 && interval >= 1
    requires Storable(residue, count, interval)
    ensures residue <= interval / count + Fraction(count, interval)
  {
    var most := interval / count + Fraction(count, interval);
    assert interval == interval / count * count + interval % count;
    assert most * count >= interval;
    SumTimes(most, 1, count);
    assert residue > most ==> residue * count >= (most + 1) * count;
  }

  /** n tokens cost at least n rounded times, and take a fraction more where the count does not divide. */
  lemma RoundedTimes(n: int, elapsed: Duration, count: int, interval: Duration)
    requires count >= 1 && interval >= 1 && n >= 0 && n * interval <= elapsed * count
    ensures n * (interval / count) <= Price(n, count, interval)
    ensures n >= 1 ==> n * (interval / count) + Fraction(count, interval) <= elapsed
  {
    var q, r := interval / count, interval % count;
    assert n * interval == n * q * count + n * r by {
      assert interval == q * count + r;
      SumTimes(q * count, r, n);
    }
    TimesNotLess(n, 0, r);
    FloorAtLeast(n * interval, count, n * q);
    if n >= 1 && r > 0 {
      TimesNotLess(n, 1, r);
      LessTimes(n * q, elapsed, count);
    } else if n >= 1 {
      CancelCount(n * q, elapsed, count);
    }
  }

  /** Time that is all paid for tokens is more than their rounded times, where the count does not divide. */
  lemma SpentTimeIsLonger(n: int, elapsed: Duration, count: int, interval: Duration)
    requires count >= 1 && interval >= 1 && n >= 0 && elapsed >= 1 && n * interval <= elapsed * count
    requires elapsed == Price(n, count, interval)
    ensures n * (interval / count) + Fraction(count, interval) <= elapsed
  {
    assert Price(0, count, interval) == 0;
    RoundedTimes(n, elapsed, count, interval);
  }

  lemma RoundedIsFairAt(count: int, capacity: int, interval: Duration, residue: Duration, waited: Duration)
    requires count >= 1 && interval >= 1 && residue >= 0 && waited >= 1
    ensures FairAt(Rounded(count, interval), count, capacity, interval, residue, waited)
  {
    var w, elapsed := Rounded(count, interval), residue + waited;
    var earned := Earned(elapsed, count, interval);
    EarnedAtLeast(elapsed, count, interval, earned);
    PriceWithinElapsed(elapsed, count, interval);
    RoundedTimes(earned, elapsed, count, interval);
    if elapsed == Price(earned, count, interval) {
      SpentTimeIsLonger(earned, elapsed, count, interval);
    }
    assert w.Stored(residue) + waited * w.time >= elapsed - w.discount;
    OrderTimes(Min(earned, capacity), earned, w.token) by {
      FloorAtLeast(interval, count, 0);
    }
    hide Earned, Price;
  }

  /** A token is worth its time rounded down to a nanosecond, under every allowance. */
  lemma RoundedTokenTimeIsFair(count: int, capacity: int, interval: Duration)
    requires count >= 1 && interval >= 1
    ensures Fair(Rounded(count, interval), count, capacity, interval)
  {
    FloorAtLeast(interval, count, 0);
    hide FairAt;
    forall residue, waited | Storable(residue, count, interval) && waited >= 1
      ensures FairAt(Rounded(count, interval), count, capacity, interval, residue, waited)
    {
      RoundedIsFairAt(count, capacity, interval, residue, waited);
    }
  }

  /** A steady bucket never holds more credit than a full one. */
  lemma CreditIsCapped(b: Bucket, scope: Scope, p: EvictionPolicy)
    requires scope.Usable(p)
    requires Steady(b, scope.Count(p), scope.Capacity(p), scope.Interval(p))
    ensures Credit(b, scope.Capacity(p), Rounded(scope.Count(p), scope.Interval(p)), b.updated)
         <= scope.Capacity(p) * scope.TokenTime(p)
  {
    if b.tokens < b.capacity {
      var q := scope.TokenTime(p);
      ResidueIsShort(b.residue, scope.Count(p), scope.Interval(p));
      SumTimes(b.tokens, 1, q);
      FloorAtLeast(scope.Interval(p), scope.Count(p), 0);
      OrderTimes(b.tokens + 1, b.capacity, q);
    }
    hide Allowance;
  }

  // --- Runs --------------------------------------------------------------------

  lemma UsableIsPositive(scope: Scope, p: EvictionPolicy)
    requires scope.Usable(p)
    ensures scope.Count(p) >= 1 && scope.Capacity(p) >= 1 && scope.Interval(p) >= 1
  {
  }

  lemma KnownAfterStep(b: Budgets, c: Call, p: EvictionPolicy, scope: Scope, t0: Time)
    requires scope.Usable(p) && ZERO_TIME < c.now && t0 <= c.now
    requires Known(scope.BucketIn(b), scope, p, t0)
    ensures Known(scope.BucketIn(Step(b, c, p).budgets), scope, p, c.now)
  {
    hide Step, BucketAt, Allowance, Credit;
    StepSpendsBothScopes(b, c, p, scope);
    if scope.Covers(c) {
      UsableIsPositive(scope, p);
      RoundedTokenTimeIsFair(scope.Count(p), scope.Capacity(p), scope.Interval(p));
      FoundBucket(scope.BucketIn(b), c.now, scope, p, Rounded(scope.Count(p), scope.Interval(p)));
      hide Fair;
    }
  }

  /** What the first call of a run spends in a scope. */
  function Spent(b: Budgets, c: Call, p: EvictionPolicy, scope: Scope, worth: int): int {
    if Step(b, c, p).granted && scope.Covers(c) then worth else 0
  }

  /** A grant is paid for out of the credit of its bucket. */
  lemma StepIsPaid(b: Budgets, c: Call, p: EvictionPolicy, scope: Scope, w: Worth, t0: Time)
    requires scope.Usable(p) && ZERO_TIME < c.now && t0 <= c.now
    requires Known(scope.BucketIn(b), scope, p, t0)
    requires Fair(w, scope.Count(p), scope.Capacity(p), scope.Interval(p))
    ensures Spent(b, c, p, scope, w.token) + Credit(scope.BucketIn(Step(b, c, p).budgets), scope.Capacity(p), w, c.now)
         <= Credit(scope.BucketIn(b), scope.Capacity(p), w, c.now)
  {
    StepSpendsBothScopes(b, c, p, scope);
    hide Step;
    if scope.Covers(c) {
      FoundBucket(scope.BucketIn(b), c.now, scope, p, w);
      var found := BucketAt(scope.BucketIn(b), scope.Count(p), scope.Capacity(p), scope.Interval(p), c.now);
      hide BucketAt, Fair;
      SpendingLowersCredit(found, scope.Capacity(p), w, c.now);
      hide Credit;
    }
  }

  lemma {:induction false} RunKeepsKnown(b: Budgets, calls: seq<Call>, p: EvictionPolicy, scope: Scope, t0: Time, t: Time)
    requires scope.Usable(p) && Ordered(calls) && t0 <= t
    requires Known(scope.BucketIn(b), scope, p, t0)
    requires forall i | 0 <= i < |calls| :: t0 <= calls[i].now <= t
    ensures Known(scope.BucketIn(After(b, calls, p)), scope, p, t)
    decreases |calls|
  {
    if calls != [] {
      KnownAfterStep(b, calls[0], p, scope, t0);
      hide Known, Step, Scope.Usable;
      RunKeepsKnown(Step(b, calls[0], p).budgets, calls[1..], p, scope, calls[0].now, t);
    }
  }

  lemma CreditIsNotNegative(b: Bucket, scope: Scope, p: EvictionPolicy, w: Worth, t: Time)
    requires scope.Usable(p) && Known(b, scope, p, t) && w.Natural()
    ensures Credit(b, scope.Capacity(p), w, t) >= 0
  {
    assert w.Stored(b.residue) >= 0;
    OrderTimes(0, scope.Capacity(p), w.token);
    if b != EMPTY_BUCKET {
      OrderTimes(0, b.tokens, w.token);
      OrderTimes(0, t - b.updated, w.time);
    }
    hide Worth.Stored, Allowance;
  }

  /** What a stretch of time is worth. */
  function Lapse(from: Time, to: Time, w: Worth): int {
    (to - from) * w.time
  }

  lemma LapseAdds(t0: Time, t1: Time, t2: Time, w: Worth)
    requires w.time >= 0 && t0 <= t1 <= t2
    ensures Lapse(t0, t1, w) + Lapse(t1, t2, w) == Lapse(t0, t2, w)
    ensures Lapse(t0, t1, w) >= 0
  {
    SumTimes(t1 - t0, t2 - t1, w.time);
    OrderTimes(0, t1 - t0, w.time);
  }

  /** Credit grows only with time, and an unused bucket's not even then. */
  lemma CreditGrowsWithTime(b: Bucket, capacity: int, w: Worth, t0: Time, t: Time)
    requires t0 <= t && w.time >= 0
    ensures Credit(b, capacity, w, t) <= Credit(b, capacity, w, t0) + Lapse(t0, t, w)
  {
    SumTimes(b.residue + (t0 - b.updated), t - t0, w.time);
    OrderTimes(0, t - t0, w.time);
  }

  lemma GrantedCost(b: Budgets, calls: seq<Call>, p: EvictionPolicy, scope: Scope, worth: int)
    requires calls != []
    ensures Granted(b, calls, p, scope) * worth
         == Spent(b, calls[0], p, scope, worth)
          + Granted(Step(b, calls[0], p).budgets, calls[1..], p, scope) * worth
  {
    hide Step;
    SumTimes(1, Granted(Step(b, calls[0], p).budgets, calls[1..], p, scope), worth);
  }

  /** Over a run, grants are paid for by the credit at its start and the time it lasts. */
  lemma {:induction false} GrantsArePaid(
    b: Budgets, calls: seq<Call>, p: EvictionPolicy, scope: Scope, w: Worth, t0: Time, t: Time)
    requires scope.Usable(p) && Ordered(calls) && t0 <= t
    requires Known(scope.BucketIn(b), scope, p, t0)
    requires Fair(w, scope.Count(p), scope.Capacity(p), scope.Interval(p))
    requires forall i | 0 <= i < |calls| :: t0 <= calls[i].now <= t
    ensures Granted(b, calls, p, scope) * w.token
         <= Credit(scope.BucketIn(b), scope.Capacity(p), w, t0) + Lapse(t0, t, w)
    decreases |calls|
  {
    assert w.Natural();
    if calls == [] {
      CreditIsNotNegative(scope.BucketIn(b), scope, p, w, t0);
      LapseAdds(t0, t, t, w);
      hide Credit, Fair, Lapse;
    } else {
      var c := calls[0];
      assert scope.Count(p) >= 1;
      hide Credit, Step, Known, Scope.Usable, Granted, Fair, Lapse;
      KnownAfterStep(b, c, p, scope, t0);
      StepIsPaid(b, c, p, scope, w, t0);
      CreditGrowsWithTime(scope.BucketIn(b), scope.Capacity(p), w, t0, c.now);
      GrantsArePaid(Step(b, c, p).budgets, calls[1..], p, scope, w, c.now, t);
      GrantedCost(b, calls, p, scope, w.token);
      LapseAdds(t0, c.now, t, w);
    }
  }

  /**
   The rate bound of every window: whatever came before, grants between two instants cost at
   most a full burst plus the time between them.
   */
  lemma {:induction false} RateInWindow(b: Budgets, calls: seq<Call>, p: EvictionPolicy, scope: Scope, t0: Time, t: Time)
    requires scope.Usable(p) && Ordered(calls) && t0 <= t
    requires Known(scope.BucketIn(b), scope, p, t0)
    requires forall i | 0 <= i < |calls| :: t0 <= calls[i].now <= t
    ensures Granted(b, calls, p, scope) * scope.TokenTime(p)
         <= scope.Capacity(p) * scope.TokenTime(p) + (t - t0)
    decreases |calls|
  {
    if calls == [] {
      FloorAtLeast(scope.Interval(p), scope.Count(p), 0);
      OrderTimes(0, scope.Capacity(p), scope.TokenTime(p));
    } else if !scope.Covers(calls[0]) {
      assert scope.Count(p) >= 1;
      hide Scope.TokenTime, Step, Known, Scope.Usable;
      KnownAfterStep(b, calls[0], p, scope, t0);
      RateInWindow(Step(b, calls[0], p).budgets, calls[1..], p, scope, calls[0].now, t);
    } else {
      RateFromRefill(b, calls, p, scope, t0, t);
    }
  }

  lemma SpendingLowersCredit(b: Bucket, capacity: int, w: Worth, t: Time)
    requires b.ready
    ensures Credit(b.(tokens := b.tokens - 1), capacity, w, t) == Credit(b, capacity, w, t) - w.token
  {
    SumTimes(b.tokens, -1, w.token);
  }

  /** A call leaves at most a full bucket's credit, less what it spends. */
  lemma FirstCallIsCapped(b: Budgets, c: Call, p: EvictionPolicy, scope: Scope, t0: Time)
    requires scope.Usable(p) && ZERO_TIME < c.now && t0 <= c.now && scope.Covers(c)
    requires Known(scope.BucketIn(b), scope, p, t0)
    ensures Spent(b, c, p, scope, scope.TokenTime(p))
          + Credit(scope.BucketIn(Step(b, c, p).budgets), scope.Capacity(p), Rounded(scope.Count(p), scope.Interval(p)), c.now)
         <= scope.Capacity(p) * scope.TokenTime(p)
  {
    var found := BucketAt(scope.BucketIn(b), scope.Count(p), scope.Capacity(p), scope.Interval(p), c.now);
    RoundedTokenTimeIsFair(scope.Count(p), scope.Capacity(p), scope.Interval(p));
    FoundBucket(scope.BucketIn(b), c.now, scope, p, Rounded(scope.Count(p), scope.Interval(p)));
    CreditIsCapped(found, scope, p);
    hide BucketAt, Step, Allowance, Fair;
    StepSpendsBothScopes(b, c, p, scope);
    SpendingLowersCredit(found, scope.Capacity(p), Rounded(scope.Count(p), scope.Interval(p)), c.now);
    hide Scope.TokenTime, Credit;
  }

  /** A window that opens with a call on the bucket starts from at most a full one. */
  lemma RateFromRefill(b: Budgets, calls: seq<Call>, p: EvictionPolicy, scope: Scope, t0: Time, t: Time)
    requires scope.Usable(p) && Ordered(calls) && t0 <= t
    requires Known(scope.BucketIn(b), scope, p, t0)
    requires forall i | 0 <= i < |calls| :: t0 <= calls[i].now <= t
    requires calls != [] && scope.Covers(calls[0])
    ensures Granted(b, calls, p, scope) * scope.TokenTime(p)
         <= scope.Capacity(p) * scope.TokenTime(p) + (t - t0)
  {
    RoundedTokenTimeIsFair(scope.Count(p), scope.Capacity(p), scope.Interval(p));
    hide Step, Credit, Known, Granted, Fair;
    var c := calls[0];
    KnownAfterStep(b, c, p, scope, t0);
    FirstCallIsCapped(b, c, p, scope, t0);
    GrantsArePaid(Step(b, c, p).budgets, calls[1..], p, scope, Rounded(scope.Count(p), scope.Interval(p)), c.now, t);
    GrantedCost(b, calls, p, scope, scope.TokenTime(p));
    hide Scope.TokenTime, Scope.Usable;
  }

  /** The bound from the creation of a bucket needs no slack. */
  lemma RateSinceCreation(b: Budgets, calls: seq<Call>, p: EvictionPolicy, scope: Scope, t: Time)
    requires scope.Usable(p) && Ordered(calls)
    requires calls != [] && scope.Covers(calls[0]) && scope.BucketIn(b) == EMPTY_BUCKET
    requires forall i | 0 <= i < |calls| :: calls[i].now <= t
    ensures Granted(b, calls, p, scope) * scope.TokenTime(p)
         <= scope.Capacity(p) * scope.TokenTime(p) + (t - calls[0].now)
  {
    RoundedTokenTimeIsFair(scope.Count(p), scope.Capacity(p), scope.Interval(p));
    hide Step, Granted, Fair;
    GrantsArePaid(b, calls, p, scope, Rounded(scope.Count(p), scope.Interval(p)), calls[0].now, t);
    hide Scope.TokenTime, Scope.Usable;
  }
}
