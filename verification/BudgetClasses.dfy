/** Each workload class is judged by its own allowance: what a call changes, bursts, and rates, in the settings' terms. */
module BudgetClasses {
  import opened Clock
  import opened Int64Words
  import opened Names
  import opened EvictionPolicies
  import opened TokenBuckets
  import opened BucketLaws
  import opened EvictionBudgets
  import opened BudgetRuns
  import opened BudgetTheorems
  import opened EvictionPasses
  import opened PassRuns
  import opened EvictionRetries

  /** The allowance that a class is given. */
  predicate Allows(p: EvictionPolicy, lossy: bool, spec: EvictionBudget) {
    (lossy && spec == p.lossyBudget) || (!lossy && spec == p.standardBudget)
  }

  /** A bucket that works under an allowance. */
  predicate Under(b: Bucket, count: int, capacity: int, interval: Duration) {
    b.count == count && b.capacity == capacity && b.interval == interval && b.ready
  }

  lemma FoundUnder(b: Bucket, count: int, capacity: int, interval: Duration, now: Time)
    requires count >= 1 && capacity >= 1 && interval >= 1
    ensures Under(BucketAt(b, count, capacity, interval, now), count, capacity, interval)
  {
    hide TokensEarned, MulDivFloor;
  }

  /** A call puts its two buckets under the allowance of its class, and leaves the other class and the other nodes alone. */
  lemma CallUsesItsClass(b: Budgets, lossy: bool, node: NodeName, now: Time, p: EvictionPolicy, spec: EvictionBudget)
    requires Allows(p, lossy, spec) && spec.Positive()
    ensures var after := Take(b, lossy, node, now, p).budgets;
            && (lossy ==> after.standard == b.standard) && (!lossy ==> after.lossy == b.lossy)
            && var was, own := if lossy then b.lossy else b.standard, if lossy then after.lossy else after.standard;
               && own.nodes.Keys == was.nodes.Keys + {node}
               && Under(own.nodes[node], spec.perNode, spec.burstPerNode, spec.interval)
               && Under(own.global, spec.global, spec.burstGlobal, spec.interval)
               && forall n | n in was.nodes && n != node :: own.nodes[n] == was.nodes[n]
  {
    var was := if lossy then b.lossy else b.standard;
    FoundUnder(was.Node(node), spec.perNode, spec.burstPerNode, spec.interval, now);
    FoundUnder(was.global, spec.global, spec.burstGlobal, spec.interval, now);
    hide BucketAt, WaitForOne;
  }

  // --- Bursts ----------------------------------------------------------------------------

  function Repeated(c: Call, k: nat): seq<Call> {
    seq(k, _ => c)
  }

  function Least(a: int, b: int, c: int): int {
    Min(a, Min(b, c))
  }

  /** A bucket refilled at t, with some tokens. */
  predicate Holds(b: Bucket, tokens: int, count: int, capacity: int, interval: Duration, t: Time) {
    b == Bucket(tokens, 0, t, count, capacity, interval, true) && tokens <= capacity
  }

  /** Both buckets of a call, as it finds them. */
  predicate Ready(b: Budgets, c: Call, spec: EvictionBudget, own: int, all: int) {
    var was := if c.lossy then b.lossy else b.standard;
    && Holds(BucketAt(was.Node(c.node), spec.perNode, spec.burstPerNode, spec.interval, c.now), own,
             spec.perNode, spec.burstPerNode, spec.interval, c.now)
    && Holds(BucketAt(was.global, spec.global, spec.burstGlobal, spec.interval, c.now), all,
             spec.global, spec.burstGlobal, spec.interval, c.now)
  }

  lemma FoundAsLeft(tokens: int, count: int, capacity: int, interval: Duration, t: Time)
    requires count >= 1 && capacity >= 1 && interval >= 1 && tokens <= capacity && ZERO_TIME < t
    ensures var b := Bucket(tokens, 0, t, count, capacity, interval, true);
            BucketAt(b, count, capacity, interval, t) == b
  {
  }

  lemma RepeatStep(b: Budgets, c: Call, p: EvictionPolicy, spec: EvictionBudget, own: int, all: int)
    requires Allows(p, c.lossy, spec) && spec.Positive() && ZERO_TIME < c.now && Ready(b, c, spec, own, all)
    ensures Step(b, c, p).granted <==> own >= 1 && all >= 1
    ensures Step(b, c, p).granted ==> Ready(Step(b, c, p).budgets, c, spec, own - 1, all - 1)
    ensures !Step(b, c, p).granted ==> Ready(Step(b, c, p).budgets, c, spec, own, all)
  {
    FoundAsLeft(own, spec.perNode, spec.burstPerNode, spec.interval, c.now);
    FoundAsLeft(all, spec.global, spec.burstGlobal, spec.interval, c.now);
    FoundAsLeft(own - 1, spec.perNode, spec.burstPerNode, spec.interval, c.now);
    FoundAsLeft(all - 1, spec.global, spec.burstGlobal, spec.interval, c.now);
    hide BucketAt, WaitForOne;
  }

  lemma {:induction false} RepeatsAreGranted(
    b: Budgets, c: Call, k: nat, p: EvictionPolicy, spec: EvictionBudget, own: int, all: int)
    requires Allows(p, c.lossy, spec) && spec.Positive() && ZERO_TIME < c.now && Ready(b, c, spec, own, all)
    requires own >= 0 && all >= 0
    ensures Granted(b, Repeated(c, k), p, GlobalScope(c.lossy)) == Least(k, own, all)
    decreases k
  {
    hide Ready, Step;
    if k > 0 {
      RepeatStep(b, c, p, spec, own, all);
      assert Repeated(c, k)[1..] == Repeated(c, k - 1);
      var granted := Step(b, c, p).granted;
      RepeatsAreGranted(Step(b, c, p).budgets, c, k - 1, p, spec, if granted then own - 1 else own, if granted then all - 1 else all);
    }
  }

  /** From process start, calls of one class for one node at one instant are granted up to the smaller burst of the class. */
  lemma BurstIsExact(c: Call, k: nat, p: EvictionPolicy, spec: EvictionBudget)
    requires Allows(p, c.lossy, spec) && spec.Positive() && ZERO_TIME < c.now
    ensures Granted(NO_BUDGETS, Repeated(c, k), p, GlobalScope(c.lossy)) == Least(k, spec.burstPerNode, spec.burstGlobal)
  {
    assert Ready(NO_BUDGETS, c, spec, spec.burstPerNode, spec.burstGlobal);
    hide Ready;
    RepeatsAreGranted(NO_BUDGETS, c, k, p, spec, spec.burstPerNode, spec.burstGlobal);
  }

  // --- Rates -----------------------------------------------------------------------------

  /** The rate bounds of a class: of each node and of all of them, in every window from process start. */
  lemma ClassRateInEveryWindow(
    calls: seq<Call>, i: nat, j: nat, p: EvictionPolicy, lossy: bool, node: NodeName, spec: EvictionBudget)
    requires Allows(p, lossy, spec) && Ordered(calls) && i < j <= |calls|
    requires Allowance(spec.perNode, spec.burstPerNode, spec.interval) && Allowance(spec.global, spec.burstGlobal, spec.interval)
    ensures var before, window, lasts := After(NO_BUDGETS, calls[..i], p), calls[i..j], calls[j - 1].now - calls[i].now;
            var token, globalToken := spec.interval / spec.perNode, spec.interval / spec.global;
            && Granted(before, window, p, NodeScope(lossy, node)) * token <= spec.burstPerNode * token + lasts
            && Granted(before, window, p, GlobalScope(lossy)) * globalToken <= spec.burstGlobal * globalToken + lasts
  {
    hide Granted, After, Ordered;
    RateInEveryWindow(calls, i, j, p, NodeScope(lossy, node));
    RateInEveryWindow(calls, i, j, p, GlobalScope(lossy));
  }

  /** With no budget set, a class sends a request at once and then one a minute, over all nodes, in every window of passes. */
  lemma DefaultRequestRate(
    visits: seq<Visit>, i: nat, j: nat, given: EvictionPolicy, hash: RetryKey -> nat, lossy: bool)
    requires InTime(visits) && i < j <= |visits|
    requires given.maxPerReconcile <= 0 && given.budgetInterval <= 0
    requires var unset := EvictionBudget(0, 0, 0, 0, 0); given.standardBudget == unset && given.lossyBudget == unset
    ensures RunRequests(Run(START, visits[..i], given, hash), visits[i..j], given, hash, GlobalScope(lossy)) * 60_000_000_000
         <= 60_000_000_000 + (visits[j - 1].now - visits[i].now)
  {
    hide Run, RunRequests, InTime;
    SettingsAreInherited(given);
    RequestRateInEveryWindow(visits, i, j, given, hash, GlobalScope(lossy));
    hide EvictionPolicy.Normalized;
  }
}
