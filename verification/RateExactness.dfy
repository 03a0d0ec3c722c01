/** Exactly which allowances keep to count tokens per interval after the burst, and runs that outpace the others. */
module RateExactness {
  import opened Clock
  import opened Products
  import opened Int64Words
  import opened Names
  import opened EvictionPolicies
  import opened TokenBuckets
  import opened BucketLaws
  import opened EvictionBudgets
  import opened BudgetRuns
  import opened RefillComposition

  /** Every run from process start grants at most the burst plus count per interval elapsed. */
  ghost predicate KeepsDocumentedRate(p: EvictionPolicy, scope: Scope) {
    forall calls: seq<Call> | Ordered(calls) && calls != [] ::
      Excess(calls, p, scope) <= 0
  }

  /** What a run grants beyond its burst and the count per interval elapsed, scaled by the interval. */
  function Excess(calls: seq<Call>, p: EvictionPolicy, scope: Scope): int
    requires calls != []
  {
    Granted(NO_BUDGETS, calls, p, scope) * scope.Interval(p)
    - scope.Capacity(p) * scope.Interval(p)
    - (calls[|calls| - 1].now - calls[0].now) * scope.Count(p)
  }

  /**
   Rounding gains nothing. With at most a token per nanosecond: one token at most, or a whole number of
   nanoseconds each. With more: a whole number of tokens per nanosecond, or a burst that the first
   rounded nanosecond and the next cannot fill beyond what two earn.
   */
  predicate RoundingIsFree(count: int, capacity: int, interval: Duration)
    requires count >= 1 && interval >= 1
  {
    if count <= interval then capacity == 1 || interval % count == 0
    else count % interval == 0 || (capacity + count / interval) * interval <= 2 * count
  }

  predicate PricesAreExact(p: EvictionPolicy, scope: Scope)
    requires scope.Count(p) >= 1 && scope.Interval(p) >= 1
  {
    RoundingIsFree(scope.Count(p), scope.Capacity(p), scope.Interval(p))
  }

  // --- Where rounding is free ------------------------------------------------------------

  /** A token is worth the interval and a nanosecond the count; a lone nanosecond stored may be worth less. */
  function ExactWorth(count: int, interval: Duration): Worth
    requires interval >= 1
  {
    Worth(interval, count, if count <= interval || count % interval == 0 then 0 else count / interval * interval)
  }

  lemma ExactPrice(n: int, count: int, interval: Duration)
    requires count >= 1 && interval % count == 0
    ensures Price(n, count, interval) * count == n * interval
  {
    Division(count, interval, n);
    var whole := n * (interval / count);
    SumTimes(whole, 1, count);
    FloorIs(n * interval, count, whole);
  }

  /** Where nothing is rounded below capacity, tokens and the time left are worth the time there was. */
  lemma WholePricesAreFairAt(count: int, capacity: int, interval: Duration, residue: Duration, waited: Duration)
    requires count >= 1 && interval >= 1 && residue >= 0 && waited >= 1
    requires capacity == 1 || interval % count == 0
    ensures FairAt(Worth(interval, count, 0), count, capacity, interval, residue, waited)
  {
    var elapsed := residue + waited;
    var earned := Earned(elapsed, count, interval);
    PriceWithinElapsed(elapsed, count, interval);
    EarnedAtLeast(elapsed, count, interval, earned);
    SumTimes(residue, waited, count);
    OrderTimes(Min(earned, capacity), earned, interval);
    OrderTimes(0, residue, count);
    SumTimes(elapsed, -Price(earned, count, interval), count);
    OrderTimes(0, elapsed - Price(earned, count, interval), count);
    if interval % count == 0 {
      ExactPrice(earned, count, interval);
    }
    hide Earned, Price;
  }

  /** A whole number of tokens per nanosecond never leaves time over. */
  lemma WholeTokensAreFairAt(count: int, capacity: int, interval: Duration, residue: Duration, waited: Duration)
    requires interval >= 1 && count >= 1 && count % interval == 0 && residue >= 0 && waited >= 1
    ensures FairAt(Worth(interval, count, 0), count, capacity, interval, residue, waited)
  {
    var elapsed := residue + waited;
    var earned := Earned(elapsed, count, interval);
    WholeTokensPay(elapsed, count, interval);
    EarnedAtLeast(elapsed, count, interval, earned);
    SumTimes(residue, waited, count);
    OrderTimes(0, residue, count);
    OrderTimes(Min(earned, capacity), earned, interval);
    hide Earned, Price;
  }

  /** The first nanosecond after a refill that left nothing over. */
  lemma FirstNanosecondIsFair(count: int, capacity: int, interval: Duration)
    requires 1 <= interval < count && capacity >= 1
    ensures FairAt(Worth(interval, count, count / interval * interval), count, capacity, interval, 0, 1)
  {
    var each := count / interval;
    FloorAtLeast(count, interval, 0);
    OrderTimes(0, each, interval);
    assert Earned(1, count, interval) == each;
    PriceWithinElapsed(1, count, interval);
    OrderTimes(Min(each, capacity), each, interval);
    hide Earned, Price;
  }

  /** Two nanoseconds or more fill the bucket. */
  lemma LaterNanosecondsAreFair(count: int, capacity: int, interval: Duration, residue: Duration, waited: Duration)
    requires 1 <= interval < count && capacity >= 1 && 0 <= residue <= 1 && waited >= 1 && residue + waited >= 2
    requires (capacity + count / interval) * interval <= 2 * count
    ensures FairAt(Worth(interval, count, count / interval * interval), count, capacity, interval, residue, waited)
  {
    var each, elapsed := count / interval, residue + waited;
    SumTimes(capacity, each, interval);
    FloorAtLeast(count, interval, 0);
    OrderTimes(0, each, interval);
    OrderTimes(2, elapsed, count);
    EarnedAtLeast(elapsed, count, interval, capacity);
    OrderTimes(if residue == 0 then 2 else 1, waited, count);
    hide Earned, Price;
  }

  /** A rounded nanosecond stored is worth what it did not earn. */
  lemma FastTokensAreFairAt(count: int, capacity: int, interval: Duration, residue: Duration, waited: Duration)
    requires 1 <= interval < count && capacity >= 1 && Storable(residue, count, interval) && waited >= 1
    requires (capacity + count / interval) * interval <= 2 * count
    ensures FairAt(Worth(interval, count, count / interval * interval), count, capacity, interval, residue, waited)
  {
    LessTimes(residue, 2, count);
    hide FairAt;
    if residue + waited == 1 {
      FirstNanosecondIsFair(count, capacity, interval);
    } else {
      LaterNanosecondsAreFair(count, capacity, interval, residue, waited);
    }
  }

  lemma ExactPricesAreFair(count: int, capacity: int, interval: Duration)
    requires count >= 1 && capacity >= 1 && interval >= 1 && RoundingIsFree(count, capacity, interval)
    ensures Fair(ExactWorth(count, interval), count, capacity, interval)
  {
    FloorAtLeast(count, interval, 0);
    OrderTimes(0, count / interval, interval);
    hide FairAt;
    forall residue, waited | Storable(residue, count, interval) && waited >= 1
      ensures FairAt(ExactWorth(count, interval), count, capacity, interval, residue, waited)
    {
      if count <= interval {
        WholePricesAreFairAt(count, capacity, interval, residue, waited);
      } else if count % interval == 0 {
        WholeTokensAreFairAt(count, capacity, interval, residue, waited);
      } else {
        FastTokensAreFairAt(count, capacity, interval, residue, waited);
      }
    }
  }

  lemma ExactPricesKeepRate(p: EvictionPolicy, scope: Scope)
    requires scope.Usable(p) && PricesAreExact(p, scope)
    ensures KeepsDocumentedRate(p, scope)
  {
    ExactPricesAreFair(scope.Count(p), scope.Capacity(p), scope.Interval(p));
    var w := ExactWorth(scope.Count(p), scope.Interval(p));
    hide Fair, Granted, PricesAreExact;
    forall calls: seq<Call> | Ordered(calls) && calls != []
      ensures Excess(calls, p, scope) <= 0
    {
      GrantsArePaid(NO_BUDGETS, calls, p, scope, w, calls[0].now, calls[|calls| - 1].now);
    }
  }

  // --- One bucket on its own ------------------------------------------------------------

  /** An allowance of one bucket. */
  datatype Terms = Terms(count: int, capacity: int, interval: Duration) {
    ghost predicate Usable() {
      Allowance(count, capacity, interval)
    }

    function Holding(tokens: int, residue: Duration, at: Time): Bucket {
      Bucket(tokens, residue, at, count, capacity, interval, true)
    }

    function Found(b: Bucket, t: Time): Bucket {
      BucketAt(b, count, capacity, interval, t)
    }

    /** A call at t on its own. */
    function Spend(b: Bucket, t: Time): Bucket {
      var found := Found(b, t);
      if found.tokens >= 1 then found.(tokens := found.tokens - 1) else found
    }
  }

  function LoneGrants(m: Terms, b: Bucket, times: seq<Time>): nat
    decreases |times|
  {
    if times == [] then 0
    else (if m.Found(b, times[0]).tokens >= 1 then 1 else 0) + LoneGrants(m, m.Spend(b, times[0]), times[1..])
  }

  function LoneAfter(m: Terms, b: Bucket, times: seq<Time>): Bucket
    decreases |times|
  {
    if times == [] then b else LoneAfter(m, m.Spend(b, times[0]), times[1..])
  }

  lemma {:induction false} LoneInParts(m: Terms, b: Bucket, first: seq<Time>, rest: seq<Time>)
    ensures LoneGrants(m, b, first + rest) == LoneGrants(m, b, first) + LoneGrants(m, LoneAfter(m, b, first), rest)
    ensures LoneAfter(m, b, first + rest) == LoneAfter(m, LoneAfter(m, b, first), rest)
    decreases |first|
  {
    hide Terms.Spend, Terms.Found;
    if first == [] {
      assert first + rest == rest;
    } else {
      LoneInParts(m, m.Spend(b, first[0]), first[1..], rest);
      assert (first + rest)[1..] == first[1..] + rest;
    }
  }

  function Batch(k: nat, t: Time): seq<Time> {
    seq(k, _ => t)
  }

  lemma FoundAgain(m: Terms, tokens: int, residue: Duration, t: Time)
    requires m.Usable() && ZERO_TIME < t && tokens <= m.capacity
    ensures m.Found(m.Holding(tokens, residue, t), t) == m.Holding(tokens, residue, t)
  {
  }

  /** As many calls at one instant as there are tokens. */
  lemma {:induction false} BatchIsGranted(m: Terms, b: Bucket, k: nat, tokens: int, residue: Duration, t: Time)
    requires m.Usable() && ZERO_TIME < t && k <= tokens <= m.capacity
    requires m.Found(b, t) == m.Holding(tokens, residue, t)
    ensures LoneGrants(m, b, Batch(k, t)) == k
    ensures k > 0 ==> LoneAfter(m, b, Batch(k, t)) == m.Holding(tokens - k, residue, t)
    decreases k
  {
    if k > 0 {
      var next := m.Spend(b, t);
      assert next == m.Holding(tokens - 1, residue, t);
      FoundAgain(m, tokens - 1, residue, t);
      hide Terms.Found, Terms.Spend;
      BatchIsGranted(m, next, k - 1, tokens - 1, residue, t);
      assert Batch(k, t)[1..] == Batch(k - 1, t);
      assert k == 1 ==> Batch(k - 1, t) == [] && LoneAfter(m, next, []) == next;
    }
  }

  lemma FoundFull(m: Terms, t: Time)
    requires m.Usable() && ZERO_TIME < t
    ensures m.Found(EMPTY_BUCKET, t) == m.Holding(m.capacity, 0, t)
  {
  }

  // --- A run that outpaces the rate, with at most a token per nanosecond --------------------

  /** A token is a fraction longer than its rounded time, and the burst is more than one. */
  ghost predicate Slow(m: Terms) {
    m.Usable() && m.count <= m.interval && m.interval % m.count != 0 && m.capacity >= 2
  }

  function TokenTimeOf(m: Terms): Duration
    requires m.count >= 1
  {
    m.interval / m.count
  }

  /** The instant at which an empty bucket with at most a nanosecond stored has its next token. */
  function DueAt(m: Terms, b: Bucket): Time
    requires m.count >= 1
  {
    b.updated + TokenTimeOf(m) + 1 - b.residue
  }

  /** Every call comes while there are tokens, at the instant of the one before, or when the next is due. */
  ghost predicate Prompt(m: Terms, b: Bucket, times: seq<Time>)
    requires m.count >= 1
    decreases |times|
  {
    && 0 <= b.tokens <= m.capacity && 0 <= b.residue <= 1 && b == m.Holding(b.tokens, b.residue, b.updated)
    && (times != [] ==>
          && times[0] == (if b.tokens >= 1 then b.updated else DueAt(m, b))
          && Prompt(m, m.Spend(b, times[0]), times[1..]))
  }

  /** With a nanosecond to spare, an empty bucket earns its next token a rounded time later. */
  lemma TokenArrives(m: Terms, residue: Duration, at: Time)
    requires Slow(m) && ZERO_TIME < at && 0 <= residue <= 1
    ensures TokenTimeOf(m) >= 1
    ensures var due := DueAt(m, m.Holding(0, residue, at));
            m.Found(m.Holding(0, residue, at), due) == m.Holding(1, 1, due)
  {
    var b := m.Holding(0, residue, at);
    var due := DueAt(m, b);
    FloorAtLeast(m.interval, m.count, 1);
    OneTokenEarly(m.count, m.interval);
    RefillIsExact(b, due);
    hide Refilled, Earned, Price, Allowance;
  }

  lemma PromptCallFinds(m: Terms, b: Bucket, times: seq<Time>)
    requires Slow(m) && Prompt(m, b, times) && times != [] && ZERO_TIME < b.updated
    ensures b.updated <= times[0]
    ensures m.Found(b, times[0]) == if b.tokens >= 1 then b else m.Holding(1, 1, times[0])
  {
    if b.tokens >= 1 {
      FoundAgain(m, b.tokens, b.residue, b.updated);
    } else {
      TokenArrives(m, b.residue, b.updated);
    }
    hide Terms.Found;
  }

  lemma {:induction false} PromptIsGranted(m: Terms, b: Bucket, times: seq<Time>)
    requires Slow(m) && Prompt(m, b, times) && ZERO_TIME < b.updated
    ensures LoneGrants(m, b, times) == |times|
    decreases |times|
  {
    if times != [] {
      PromptCallFinds(m, b, times);
      hide Terms.Found, Slow;
      PromptIsGranted(m, m.Spend(b, times[0]), times[1..]);
    }
  }

  /** k instants, one rounded token time apart. */
  function Trickle(from: Time, q: Duration, k: nat): seq<Time>
    decreases k
  {
    if k == 0 then [] else [from + q] + Trickle(from + q, q, k - 1)
  }

  lemma {:induction false} TrickleTimes(from: Time, q: Duration, k: nat)
    requires q >= 0
    ensures var times := Trickle(from, q, k);
            && |times| == k
            && (forall i | 0 <= i < k :: from <= times[i] <= from + k * q)
            && (forall i, j | 0 <= i < j < k :: times[i] <= times[j])
            && (k > 0 ==> times[k - 1] == from + k * q)
    decreases k
  {
    if k > 0 {
      SumTimes(k - 1, 1, q);
      OrderTimes(0, k - 1, q);
      TrickleTimes(from + q, q, k - 1);
    }
  }

  lemma {:induction false} TrickleIsPrompt(m: Terms, from: Time, k: nat)
    requires Slow(m) && ZERO_TIME < from
    ensures Prompt(m, m.Holding(0, 1, from), Trickle(from, TokenTimeOf(m), k))
    decreases k
  {
    var b := m.Holding(0, 1, from);
    TokenArrives(m, 1, from);
    if k > 0 {
      var t := from + TokenTimeOf(m);
      assert DueAt(m, b) == t;
      assert m.Spend(b, t) == m.Holding(0, 1, t);
      hide Terms.Found, Terms.Spend, TokenTimeOf, Slow;
      TrickleIsPrompt(m, t, k - 1);
      assert Trickle(from, TokenTimeOf(m), k)[1..] == Trickle(t, TokenTimeOf(m), k - 1);
    }
  }

  /** A token as soon as it falls due after the burst, then one every rounded token time. */
  function AfterBurst(m: Terms, start: Time): seq<Time>
    requires m.count >= 1
  {
    var due := start + TokenTimeOf(m) + 1;
    [due] + Trickle(due, TokenTimeOf(m), m.count)
  }

  lemma {:induction false} SlowRunIsPrompt(m: Terms, k: nat, start: Time)
    requires Slow(m) && ZERO_TIME < start && k <= m.capacity
    ensures Prompt(m, m.Holding(k, 0, start), Batch(k, start) + AfterBurst(m, start))
    decreases k
  {
    var times := Batch(k, start) + AfterBurst(m, start);
    var b := m.Holding(k, 0, start);
    if k == 0 {
      var due := start + TokenTimeOf(m) + 1;
      TokenArrives(m, 0, start);
      TrickleIsPrompt(m, due, m.count);
      assert times == AfterBurst(m, start);
      assert times[1..] == Trickle(due, TokenTimeOf(m), m.count);
      assert m.Spend(b, due) == m.Holding(0, 1, due);
    } else {
      FoundAgain(m, k, 0, start);
      assert m.Spend(b, start) == m.Holding(k - 1, 0, start);
      hide Slow;
      SlowRunIsPrompt(m, k - 1, start);
      assert times[1..] == Batch(k - 1, start) + AfterBurst(m, start);
    }
    hide Terms.Found, Terms.Spend, TokenTimeOf;
  }

  /** (count + 1) tokens in (count + 1) rounded times plus a nanosecond are too many. */
  lemma TooMany(count: int, capacity: int, interval: Duration, granted: int, elapsed: Duration)
    requires count >= 1 && interval % count != 0
    requires granted == capacity + 1 + count && elapsed == (count + 1) * (interval / count) + 1
    ensures granted * interval > capacity * interval + elapsed * count
  {
    Division(count, interval, count + 1);
    SumTimes(capacity, count + 1, interval);
    SumTimes((count + 1) * (interval / count), 1, count);
    TimesNotLess(count + 1, 1, interval % count);
  }

  // --- A run that outpaces the rate, with more than a token per nanosecond -----------------

  ghost predicate Fast(m: Terms) {
    && m.Usable() && m.interval < m.count && m.count % m.interval != 0
    && 2 * m.count < (m.capacity + m.count / m.interval) * m.interval
  }

  /** The burst, what the next nanosecond earns, and what the one after that seems to. */
  function FastRun(m: Terms, start: Time): seq<Time>
    requires m.Usable()
  {
    var each, both := m.count / m.interval, Min(m.capacity, Earned(2, m.count, m.interval));
    if each < 0 || both < 0 then [] else Batch(m.capacity, start) + (Batch(each, start + 1) + Batch(both, start + 2))
  }

  /** What one nanosecond earns takes less than it. */
  lemma EachIsPart(count: int, interval: Duration)
    requires 1 <= interval < count && count % interval != 0
    ensures count / interval >= 1
    ensures Earned(1, count, interval) == count / interval && Price(count / interval, count, interval) == 0
  {
    OneNanosecond(count, interval);
  }

  /** What two earn is at most a token more than their worth. */
  lemma NextEarnsMost(count: int, interval: Duration)
    requires 1 <= interval < count
    ensures var next := Earned(2, count, interval); next >= 1 && 2 * count < next * interval + interval
  {
    var next := Earned(2, count, interval);
    EarnedAtLeast(2, count, interval, 1);
    EarnedAtLeast(2, count, interval, next + 1);
    SumTimes(next, 1, interval);
    hide Earned;
  }

  lemma FastTerms(m: Terms)
    requires Fast(m)
    ensures var each, both := m.count / m.interval, Min(m.capacity, Earned(2, m.count, m.interval));
            && 1 <= each < m.capacity && 1 <= both && 2 * m.count < (each + both) * m.interval
  {
    var each, next := m.count / m.interval, Earned(2, m.count, m.interval);
    EachIsPart(m.count, m.interval);
    NextEarnsMost(m.count, m.interval);
    SumTimes(m.capacity, each, m.interval);
    SumTimes(next, each, m.interval);
    OrderTimes(1, each, m.interval);
    if m.capacity <= each {
      OrderTimes(m.capacity, each, m.interval);
    }
    hide Earned, Price, Allowance;
  }

  /** The bucket after the burst, and after the nanosecond that follows. */
  lemma FastRunFinds(m: Terms, start: Time)
    requires Fast(m) && ZERO_TIME < start
    ensures var each, both := m.count / m.interval, Min(m.capacity, Earned(2, m.count, m.interval));
            && m.Found(m.Holding(0, 0, start), start + 1) == m.Holding(each, 1, start + 1)
            && (var found := m.Found(m.Holding(0, 1, start + 1), start + 2);
                found == m.Holding(both, found.residue, start + 2))
  {
    var each, both := m.count / m.interval, Min(m.capacity, Earned(2, m.count, m.interval));
    FastTerms(m);
    EachIsPart(m.count, m.interval);
    var drained, again := m.Holding(0, 0, start), m.Holding(0, 1, start + 1);
    RefillIsExact(drained, start + 1);
    RefillIsExact(again, start + 2);
    hide Earned, Price, Refilled;
    var found := m.Found(again, start + 2);
    assert found == m.Holding(both, found.residue, start + 2);
  }

  lemma FastRunUnfolds(m: Terms, start: Time)
    requires Fast(m)
    ensures var each, both := m.count / m.interval, Min(m.capacity, Earned(2, m.count, m.interval));
            && each >= 0 && both >= 0
            && FastRun(m, start) == Batch(m.capacity, start) + (Batch(each, start + 1) + Batch(both, start + 2))
            && |FastRun(m, start)| == m.capacity + each + both
  {
    FastTerms(m);
    hide Earned, Price, Allowance;
  }

  /** Both nanoseconds after the burst grant all that they are asked for. */
  lemma AfterFastBurstIsGranted(m: Terms, start: Time, each: nat, both: nat)
    requires Fast(m) && ZERO_TIME < start
    requires each == m.count / m.interval && both == Min(m.capacity, Earned(2, m.count, m.interval))
    ensures LoneGrants(m, m.Holding(0, 0, start), Batch(each, start + 1) + Batch(both, start + 2)) == each + both
  {
    var drained, again := m.Holding(0, 0, start), m.Holding(0, 1, start + 1);
    FastTerms(m);
    FastRunFinds(m, start);
    assert m.Usable() && 1 <= each <= m.capacity && both <= m.capacity;
    hide Terms.Found, Terms.Spend, Earned, Price, Batch, Terms.Usable, Fast, LoneGrants, LoneAfter;
    BatchIsGranted(m, drained, each, each, 1, start + 1);
    BatchIsGranted(m, again, both, both, m.Found(again, start + 2).residue, start + 2);
    LoneInParts(m, drained, Batch(each, start + 1), Batch(both, start + 2));
  }

  lemma FastRunIsGranted(m: Terms, start: Time)
    requires Fast(m) && ZERO_TIME < start
    ensures LoneGrants(m, EMPTY_BUCKET, FastRun(m, start)) == |FastRun(m, start)|
  {
    var each, both := m.count / m.interval, Min(m.capacity, Earned(2, m.count, m.interval));
    FastRunUnfolds(m, start);
    FoundFull(m, start);
    assert m.Usable() && m.capacity >= 1;
    AfterFastBurstIsGranted(m, start, each, both);
    hide Terms.Found, Terms.Spend, Earned, Price, FastRun, Batch, Terms.Usable, Fast, LoneGrants, LoneAfter;
    BatchIsGranted(m, EMPTY_BUCKET, m.capacity, m.capacity, 0, start);
    LoneInParts(m, EMPTY_BUCKET, Batch(m.capacity, start), Batch(each, start + 1) + Batch(both, start + 2));
  }

  // --- Such a run for every allowance that rounding is not free for --------------------------

  ghost predicate Rising(times: seq<Time>) {
    forall i, j | 0 <= i < j < |times| :: times[i] <= times[j]
  }

  /** A run of a lone bucket in which every call is granted, and they are too many. */
  ghost predicate Outpaces(m: Terms, times: seq<Time>, start: Time) {
    && times != [] && times[0] == start && Rising(times)
    && LoneGrants(m, EMPTY_BUCKET, times) == |times|
    && |times| * m.interval > m.capacity * m.interval + (times[|times| - 1] - start) * m.count
  }

  function SlowRun(m: Terms, start: Time): seq<Time>
    requires m.count >= 1 && m.capacity >= 1
  {
    Batch(m.capacity, start) + AfterBurst(m, start)
  }

  lemma SlowRunTimes(m: Terms, start: Time)
    requires Slow(m) && ZERO_TIME < start
    ensures var times := SlowRun(m, start);
            && Rising(times) && |times| == m.capacity + 1 + m.count && times[0] == start
            && times[|times| - 1] == start + (m.count + 1) * TokenTimeOf(m) + 1
  {
    TokenArrives(m, 0, start);
    TrickleTimes(start + TokenTimeOf(m) + 1, TokenTimeOf(m), m.count);
    SumTimes(m.count, 1, TokenTimeOf(m));
    hide Trickle, TokenTimeOf;
  }

  lemma SlowRunOutpaces(m: Terms, start: Time)
    requires Slow(m) && ZERO_TIME < start
    ensures Outpaces(m, SlowRun(m, start), start)
  {
    var times := SlowRun(m, start);
    SlowRunTimes(m, start);
    FoundFull(m, start);
    FoundAgain(m, m.capacity, 0, start);
    SlowRunIsPrompt(m, m.capacity, start);
    var full := m.Holding(m.capacity, 0, start);
    hide Terms.Found, SlowRun, Prompt;
    PromptIsGranted(m, full, times);
    assert m.Spend(full, start) == m.Spend(EMPTY_BUCKET, start);
    assert LoneGrants(m, EMPTY_BUCKET, times) == LoneGrants(m, full, times);
    TooMany(m.count, m.capacity, m.interval, |times|, times[|times| - 1] - start);
    hide LoneGrants, Terms.Spend;
  }

  lemma FastRunOutpaces(m: Terms, start: Time)
    requires Fast(m) && ZERO_TIME < start
    ensures Outpaces(m, FastRun(m, start), start)
  {
    FastTerms(m);
    FastRunIsGranted(m, start);
    FastRunUnfolds(m, start);
    var times := FastRun(m, start);
    var each, both := m.count / m.interval, Min(m.capacity, Earned(2, m.count, m.interval));
    assert times[|times| - 1] == start + 2;
    SumTimes(m.capacity, each + both, m.interval);
    hide LoneGrants, Earned, Price;
  }

  /** The run that shows it. */
  ghost function Outpacing(m: Terms, start: Time): seq<Time>
    requires m.Usable()
  {
    if m.count <= m.interval then SlowRun(m, start) else FastRun(m, start)
  }

  lemma OutpacingOutpaces(m: Terms, start: Time)
    requires m.Usable() && !RoundingIsFree(m.count, m.capacity, m.interval) && ZERO_TIME < start
    ensures Outpaces(m, Outpacing(m, start), start)
  {
    if m.count <= m.interval {
      SlowRunOutpaces(m, start);
    } else {
      FastRunOutpaces(m, start);
    }
    hide Outpaces, SlowRun, FastRun;
  }

  // --- The global bucket: every call on a node of its own -------------------------------

  function Spare(i: nat): NodeName {
    NodeName(seq(i, _ => 'n'))
  }

  /** Calls of a class, each on another node. */
  function Fan(lossy: bool, times: seq<Time>, from: nat): seq<Call>
    decreases |times|
  {
    if times == [] then [] else [Call(lossy, Spare(from), times[0])] + Fan(lossy, times[1..], from + 1)
  }

  lemma {:induction false} FanCalls(lossy: bool, times: seq<Time>, from: nat)
    ensures |Fan(lossy, times, from)| == |times|
    ensures forall i | 0 <= i < |times| :: Fan(lossy, times, from)[i].now == times[i]
    decreases |times|
  {
    if times != [] {
      FanCalls(lossy, times[1..], from + 1);
    }
  }

  ghost predicate Unused(b: Budgets, lossy: bool, from: nat) {
    forall i | from <= i :: Spare(i) !in b.Class(lossy).nodes
  }

  function GlobalTerms(p: EvictionPolicy, lossy: bool): Terms {
    Terms(p.Budget(lossy).global, p.Budget(lossy).burstGlobal, p.Budget(lossy).interval)
  }

  lemma SpareIsNew(from: nat)
    ensures forall i | from + 1 <= i :: Spare(i) != Spare(from)
  {
    assert forall i: nat :: |Spare(i).text| == i;
  }

  /** On a node that was never used, the global bucket alone decides. */
  lemma SpareNodeNeverRefuses(b: Budgets, lossy: bool, from: nat, t: Time, p: EvictionPolicy)
    requires Unused(b, lossy, from)
    ensures var c, m, g := Call(lossy, Spare(from), t), GlobalTerms(p, lossy), b.Class(lossy).global;
            && (Step(b, c, p).granted <==> m.Found(g, t).tokens >= 1)
            && Step(b, c, p).budgets.Class(lossy).global == m.Spend(g, t)
            && Unused(Step(b, c, p).budgets, lossy, from + 1)
  {
    SpareIsNew(from);
    var spec := p.Budget(lossy);
    assert b.Class(lossy).Node(Spare(from)) == EMPTY_BUCKET;
    assert BucketAt(EMPTY_BUCKET, spec.perNode, spec.burstPerNode, spec.interval, t).tokens >= 1;
    hide BucketAt, WaitForOne, Spare;
  }

  lemma {:induction false} FanIsLone(b: Budgets, lossy: bool, times: seq<Time>, from: nat, p: EvictionPolicy)
    requires Unused(b, lossy, from)
    ensures Granted(b, Fan(lossy, times, from), p, GlobalScope(lossy))
         == LoneGrants(GlobalTerms(p, lossy), b.Class(lossy).global, times)
    decreases |times|
  {
    if times != [] {
      SpareNodeNeverRefuses(b, lossy, from, times[0], p);
      var c := Call(lossy, Spare(from), times[0]);
      hide Step, Terms.Found, Terms.Spend, Unused, Spare;
      FanIsLone(Step(b, c, p).budgets, lossy, times[1..], from + 1, p);
      assert Fan(lossy, times, from)[1..] == Fan(lossy, times[1..], from + 1);
    }
  }

  /**
   The calls of a class over all nodes keep to the documented rate exactly if rounding is free for the
   global allowance, whatever the allowance of a node.
   */
  lemma GlobalRateIsKeptIffPricesAreExact(p: EvictionPolicy, lossy: bool)
    requires GlobalScope(lossy).Usable(p)
    ensures KeepsDocumentedRate(p, GlobalScope(lossy)) <==> PricesAreExact(p, GlobalScope(lossy))
  {
    var scope, m := GlobalScope(lossy), GlobalTerms(p, lossy);
    if PricesAreExact(p, scope) {
      ExactPricesKeepRate(p, scope);
    } else {
      OutpacingOutpaces(m, 1);
      var times := Outpacing(m, 1);
      var calls := Fan(lossy, times, 0);
      FanIsLone(NO_BUDGETS, lossy, times, 0, p);
      FanCalls(lossy, times, 0);
      assert Excess(calls, p, scope) > 0 && Ordered(calls);
    }
    hide Granted, LoneGrants, Fan, Outpacing, RoundingIsFree;
  }

  // --- A node's bucket, under a global allowance that is at least as large --------------------

  function NodeTerms(p: EvictionPolicy, lossy: bool): Terms {
    Terms(p.Budget(lossy).perNode, p.Budget(lossy).burstPerNode, p.Budget(lossy).interval)
  }

  /** The global count and burst are at least a node's. */
  predicate Roomy(p: EvictionPolicy, lossy: bool) {
    p.Budget(lossy).perNode <= p.Budget(lossy).global && p.Budget(lossy).burstPerNode <= p.Budget(lossy).burstGlobal
  }

  /** The global bucket is no worse off than a node's. */
  ghost predicate Leads(m: Terms, g: Bucket, n: Bucket) {
    && g == m.Holding(g.tokens, g.residue, n.updated)
    && n.tokens <= g.tokens <= m.capacity && 0 <= g.residue
    && (g.tokens == n.tokens ==> n.residue <= g.residue)
  }

  /** At the instant the node's next token is due, the global bucket still leads. */
  lemma StillLeads(m: Terms, n: Terms, g: Bucket, residue: Duration, at: Time)
    requires Slow(n) && m.Usable() && m.interval == n.interval && n.count <= m.count && n.capacity <= m.capacity
    requires ZERO_TIME < at && 0 <= residue <= 1 && Leads(m, g, n.Holding(0, residue, at))
    ensures var due := DueAt(n, n.Holding(0, residue, at));
            Leads(m, m.Found(g, due), n.Holding(1, 1, due))
  {
    var due := DueAt(n, n.Holding(0, residue, at));
    TokenArrives(n, residue, at);
    RefillIsExact(g, due);
    var elapsed := due - at + g.residue;
    var earned := Earned(elapsed, m.count, m.interval);
    LargerCountEarns(n.count, m.count, m.interval, elapsed, residue);
    PriceOfOne(n.count, m.count, m.interval);
    EarnedAtLeast(elapsed, m.count, m.interval, 0);
    assert Price(0, m.count, m.interval) == 0;
    hide Refilled, Earned, Price, Allowance;
  }

  lemma LargerCountEarns(count: int, larger: int, interval: Duration, elapsed: Duration, residue: Duration)
    requires 1 <= count <= larger && count <= interval && residue <= 1
    ensures elapsed >= interval / count + 1 ==> Earned(elapsed, larger, interval) >= 1
  {
    if elapsed >= interval / count + 1 {
      assert interval == interval / count * count + interval % count;
      OrderTimes(interval / count + 1, elapsed, count);
      SumTimes(interval / count, 1, count);
      TimesNotLess(elapsed, count, larger);
      EarnedAtLeast(elapsed, larger, interval, 1);
    }
  }

  lemma PriceOfOne(count: int, larger: int, interval: Duration)
    requires 1 <= count <= larger && interval >= 1
    ensures Price(1, larger, interval) <= interval / count
  {
    var q := interval / larger;
    assert q * larger <= interval;
    FloorAtLeast(interval, larger, 0);
    TimesNotLess(q, count, larger);
    FloorAtLeast(interval, count, q);
  }

  /** A node's bucket and a global one that leads it. */
  ghost predicate Paired(b: Budgets, c: Call, p: EvictionPolicy, n: Bucket) {
    b.Class(c.lossy).Node(c.node) == n && Leads(GlobalTerms(p, c.lossy), b.Class(c.lossy).global, n)
  }

  /** A call that finds a token in the node's bucket, with the global one still ahead, is granted. */
  lemma PairedStep(b: Budgets, c: Call, p: EvictionPolicy, n: Bucket, g: Bucket)
    requires b.Class(c.lossy).Node(c.node) == n && b.Class(c.lossy).global == g
    requires var found := NodeTerms(p, c.lossy).Found(n, c.now);
             found.tokens >= 1 && Leads(GlobalTerms(p, c.lossy), GlobalTerms(p, c.lossy).Found(g, c.now), found)
    ensures Step(b, c, p).granted
    ensures Paired(Step(b, c, p).budgets, c, p, NodeTerms(p, c.lossy).Spend(n, c.now))
  {
    hide BucketAt, WaitForOne;
  }

  function OnNode(lossy: bool, node: NodeName, times: seq<Time>): seq<Call> {
    seq(|times|, i requires 0 <= i < |times| => Call(lossy, node, times[i]))
  }

  lemma GrantedFirst(b: Budgets, lossy: bool, node: NodeName, times: seq<Time>, p: EvictionPolicy)
    requires times != []
    ensures var c := Call(lossy, node, times[0]);
            Granted(b, OnNode(lossy, node, times), p, NodeScope(lossy, node))
            == (if Step(b, c, p).granted then 1 else 0)
             + Granted(Step(b, c, p).budgets, OnNode(lossy, node, times[1..]), p, NodeScope(lossy, node))
  {
    hide Step;
    assert OnNode(lossy, node, times)[1..] == OnNode(lossy, node, times[1..]);
  }

  lemma {:induction false} PromptNodeIsGranted(
    b: Budgets, lossy: bool, node: NodeName, times: seq<Time>, p: EvictionPolicy, n: Bucket)
    requires Slow(NodeTerms(p, lossy)) && GlobalTerms(p, lossy).Usable() && Roomy(p, lossy)
    requires Prompt(NodeTerms(p, lossy), n, times) && ZERO_TIME < n.updated
    requires times != [] ==> Paired(b, Call(lossy, node, times[0]), p, n)
    ensures Granted(b, OnNode(lossy, node, times), p, NodeScope(lossy, node)) == |times|
    decreases |times|
  {
    var m, g := GlobalTerms(p, lossy), b.Class(lossy).global;
    if times != [] {
      var c := Call(lossy, node, times[0]);
      PromptCallFinds(NodeTerms(p, lossy), n, times);
      if n.tokens >= 1 {
        FoundAgain(m, g.tokens, g.residue, n.updated);
      } else {
        StillLeads(m, NodeTerms(p, lossy), g, n.residue, n.updated);
      }
      hide Terms.Found, Slow, Leads, DueAt, Roomy, Allowance;
      PairedStep(b, c, p, n, g);
      hide Step, Granted;
      GrantedFirst(b, lossy, node, times, p);
      PromptNodeIsGranted(Step(b, c, p).budgets, lossy, node, times[1..], p, NodeTerms(p, lossy).Spend(n, c.now));
      hide Paired, Prompt, Terms.Spend, OnNode;
    }
  }

  lemma SlowNodeRunIsGranted(p: EvictionPolicy, lossy: bool, node: NodeName, start: Time)
    requires Slow(NodeTerms(p, lossy)) && GlobalTerms(p, lossy).Usable() && Roomy(p, lossy) && ZERO_TIME < start
    ensures var times := SlowRun(NodeTerms(p, lossy), start);
            Granted(NO_BUDGETS, OnNode(lossy, node, times), p, NodeScope(lossy, node)) == |times|
  {
    var n, m := NodeTerms(p, lossy), GlobalTerms(p, lossy);
    var times := SlowRun(n, start);
    var c := Call(lossy, node, start);
    SlowRunTimes(n, start);
    FoundFull(n, start);
    FoundFull(m, start);
    FoundAgain(n, n.capacity, 0, start);
    SlowRunIsPrompt(n, n.capacity, start);
    assert n.Spend(n.Holding(n.capacity, 0, start), start) == n.Spend(EMPTY_BUCKET, start);
    hide Terms.Found, Terms.Spend, SlowRun, Slow;
    PairedStep(NO_BUDGETS, c, p, EMPTY_BUCKET, EMPTY_BUCKET);
    hide Step, Granted;
    GrantedFirst(NO_BUDGETS, lossy, node, times, p);
    PromptNodeIsGranted(Step(NO_BUDGETS, c, p).budgets, lossy, node, times[1..], p, n.Spend(EMPTY_BUCKET, start));
    hide Leads, Paired;
  }

  /**
   With at most a token per nanosecond, and a global count and burst at least a node's, the calls of a
   class on one node keep to the documented rate exactly if rounding is free for the node's allowance.
   */
  lemma NodeRateIsKeptIffPricesAreExact(p: EvictionPolicy, lossy: bool, node: NodeName)
    requires NodeScope(lossy, node).Usable(p) && GlobalScope(lossy).Usable(p)
    requires Roomy(p, lossy) && p.Budget(lossy).perNode <= p.Budget(lossy).interval
    ensures KeepsDocumentedRate(p, NodeScope(lossy, node)) <==> PricesAreExact(p, NodeScope(lossy, node))
  {
    var scope, m := NodeScope(lossy, node), NodeTerms(p, lossy);
    if PricesAreExact(p, scope) {
      ExactPricesKeepRate(p, scope);
    } else {
      SlowRunOutpaces(m, 1);
      SlowNodeRunIsGranted(p, lossy, node, 1);
      var calls := OnNode(lossy, node, SlowRun(m, 1));
      assert Excess(calls, p, scope) > 0 && Ordered(calls);
    }
    hide Granted, LoneGrants, SlowRun, RoundingIsFree;
  }

  /** A node is granted no more than all nodes are. */
  lemma {:induction false} NodeGrantsAreGlobal(b: Budgets, calls: seq<Call>, p: EvictionPolicy, lossy: bool, node: NodeName)
    ensures Granted(b, calls, p, NodeScope(lossy, node)) <= Granted(b, calls, p, GlobalScope(lossy))
    decreases |calls|
  {
    hide Step;
    if calls != [] {
      NodeGrantsAreGlobal(Step(b, calls[0], p).budgets, calls[1..], p, lossy, node);
    }
  }

  /** Under a global count and burst that are no larger, a node keeps its rate wherever the global scope keeps its own. */
  lemma TightGlobalKeepsNodeRate(p: EvictionPolicy, lossy: bool, node: NodeName)
    requires NodeScope(lossy, node).Usable(p) && GlobalScope(lossy).Usable(p)
    requires p.Budget(lossy).global <= p.Budget(lossy).perNode && p.Budget(lossy).burstGlobal <= p.Budget(lossy).burstPerNode
    requires PricesAreExact(p, GlobalScope(lossy))
    ensures KeepsDocumentedRate(p, NodeScope(lossy, node))
  {
    var own, all, budget := NodeScope(lossy, node), GlobalScope(lossy), p.Budget(lossy);
    ExactPricesKeepRate(p, all);
    hide Granted, PricesAreExact, Allowance;
    forall calls: seq<Call> | Ordered(calls) && calls != []
      ensures Excess(calls, p, own) <= 0
    {
      assert Excess(calls, p, all) <= 0;
      NodeGrantsAreGlobal(NO_BUDGETS, calls, p, lossy, node);
      OrderTimes(Granted(NO_BUDGETS, calls, p, own), Granted(NO_BUDGETS, calls, p, all), budget.interval);
      OrderTimes(budget.burstGlobal, budget.burstPerNode, budget.interval);
      TimesNotLess(calls[|calls| - 1].now - calls[0].now, budget.global, budget.perNode);
    }
  }
}
