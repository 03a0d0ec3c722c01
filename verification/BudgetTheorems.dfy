/** What callers of the budgets are promised over whole runs. */
module BudgetTheorems {
  import opened Clock
  import opened Names
  import opened EvictionPolicies
  import opened TokenBuckets
  import opened BucketLaws
  import opened EvictionBudgets
  import opened BudgetRuns

  /** From process start, every window of every run obeys the rate bound of every bucket. */
  lemma RateInEveryWindow(calls: seq<Call>, i: nat, j: nat, p: EvictionPolicy, scope: Scope)
    requires scope.Usable(p) && Ordered(calls) && i < j <= |calls|
    ensures Granted(After(NO_BUDGETS, calls[..i], p), calls[i..j], p, scope) * scope.TokenTime(p)
         <= scope.Capacity(p) * scope.TokenTime(p) + (calls[j - 1].now - calls[i].now)
  {
    hide Scope.Usable, Scope.TokenTime, Known, Step, Granted, After;
    UnusedIsKnown(scope, p);
    var start := calls[i].now;
    var t0 := calls[0].now;
    assert forall k | 0 <= k < i :: t0 <= calls[k].now <= start;
    RunKeepsKnown(NO_BUDGETS, calls[..i], p, scope, t0, start);
    RateInWindow(After(NO_BUDGETS, calls[..i], p), calls[i..j], p, scope, start, calls[j - 1].now);
  }

  lemma UnusedIsKnown(scope: Scope, p: EvictionPolicy)
    ensures forall t :: Known(scope.BucketIn(NO_BUDGETS), scope, p, t)
  {
  }

  /** When the count divides the interval this is count calls per interval after the burst. */
  lemma DocumentedRateInEveryWindow(calls: seq<Call>, i: nat, j: nat, p: EvictionPolicy, scope: Scope)
    requires scope.Usable(p) && Ordered(calls) && i < j <= |calls|
    requires scope.Interval(p) % scope.Count(p) == 0
    ensures Granted(After(NO_BUDGETS, calls[..i], p), calls[i..j], p, scope) * scope.Interval(p)
         <= scope.Capacity(p) * scope.Interval(p) + (calls[j - 1].now - calls[i].now) * scope.Count(p)
  {
    hide Granted, After, Step;
    RateInEveryWindow(calls, i, j, p, scope);
    var granted := Granted(After(NO_BUDGETS, calls[..i], p), calls[i..j], p, scope);
    ScaleBound(granted, scope.Capacity(p), calls[j - 1].now - calls[i].now, scope.TokenTime(p), scope.Count(p));
    assert scope.Interval(p) == scope.TokenTime(p) * scope.Count(p);
    hide Scope.TokenTime, Scope.Usable;
  }

  lemma ScaleBound(granted: int, capacity: int, elapsed: int, q: int, count: int)
    requires count >= 1 && granted * q <= capacity * q + elapsed
    ensures granted * (q * count) <= capacity * (q * count) + elapsed * count
  {
    assert granted * q * count <= (capacity * q + elapsed) * count;
    assert (capacity * q + elapsed) * count == capacity * q * count + elapsed * count;
    assert granted * q * count == granted * (q * count);
    assert capacity * q * count == capacity * (q * count);
  }

  // --- Conservation across nodes ---------------------------------------------------

  function SumOverNodes(b: Budgets, calls: seq<Call>, p: EvictionPolicy, lossy: bool, nodes: seq<NodeName>): nat {
    if nodes == [] then 0
    else Granted(b, calls, p, NodeScope(lossy, nodes[0])) + SumOverNodes(b, calls, p, lossy, nodes[1..])
  }

  lemma {:induction false} FirstCallCountsOnce(
    b: Budgets, calls: seq<Call>, p: EvictionPolicy, lossy: bool, nodes: seq<NodeName>)
    requires calls != []
    requires forall i, j | 0 <= i < j < |nodes| :: nodes[i] != nodes[j]
    ensures SumOverNodes(b, calls, p, lossy, nodes)
         == SumOverNodes(Step(b, calls[0], p).budgets, calls[1..], p, lossy, nodes)
          + (if Step(b, calls[0], p).granted && calls[0].lossy == lossy && calls[0].node in nodes then 1 else 0)
  {
    hide Step;
    if nodes != [] {
      FirstCallCountsOnce(b, calls, p, lossy, nodes[1..]);
      assert calls[0].node in nodes <==> calls[0].node == nodes[0] || calls[0].node in nodes[1..];
    }
  }

  /** Every token of the global bucket is spent together with exactly one node's token. */
  lemma {:induction false} NodeGrantsAddUpToGlobal(
    b: Budgets, calls: seq<Call>, p: EvictionPolicy, lossy: bool, nodes: seq<NodeName>)
    requires forall i, j | 0 <= i < j < |nodes| :: nodes[i] != nodes[j]
    requires forall c | c in calls && c.lossy == lossy :: c.node in nodes
    ensures SumOverNodes(b, calls, p, lossy, nodes) == Granted(b, calls, p, GlobalScope(lossy))
    decreases |calls|
  {
    if calls == [] {
      NothingSumsToNothing(b, p, lossy, nodes);
    } else {
      hide Step;
      FirstCallCountsOnce(b, calls, p, lossy, nodes);
      NodeGrantsAddUpToGlobal(Step(b, calls[0], p).budgets, calls[1..], p, lossy, nodes);
    }
  }

  lemma {:induction false} NothingSumsToNothing(b: Budgets, p: EvictionPolicy, lossy: bool, nodes: seq<NodeName>)
    ensures SumOverNodes(b, [], p, lossy, nodes) == 0
  {
    if nodes != [] {
      NothingSumsToNothing(b, p, lossy, nodes[1..]);
    }
  }

  // --- The wait after a refusal ----------------------------------------------------

  /** A ready bucket with sane counters, last refilled no later than t. */
  ghost predicate ReadyAt(b: Bucket, spec: EvictionPolicy, scope: Scope, t: Time) {
    && Sane(b)
    && b.count == scope.Count(spec) && b.capacity == scope.Capacity(spec) && b.interval == scope.Interval(spec)
    && ZERO_TIME < b.updated <= t
  }

  /** What the source asks of a bucket before a call: unset, or sane and not ahead of the clock. */
  ghost predicate Usual(b: Bucket, t: Time) {
    b == EMPTY_BUCKET || (b.ready && 0 <= b.tokens && 0 <= b.residue && ZERO_TIME <= b.updated <= t)
  }

  ghost predicate Due(b: Budgets, c: Call, p: EvictionPolicy, t: Time) {
    && HasTokenAt(NodeScope(c.lossy, c.node).BucketIn(b), t)
    && HasTokenAt(GlobalScope(c.lossy).BucketIn(b), t)
  }

  lemma FoundReady(b: Bucket, t: Time, p: EvictionPolicy, scope: Scope)
    requires scope.Usable(p) && Usual(b, t) && ZERO_TIME < t
    ensures var f := BucketAt(b, scope.Count(p), scope.Capacity(p), scope.Interval(p), t);
            ReadyAt(f, p, scope, t) && f.updated == t
  {
    ConfigureInstallsAllowance(b, scope.Count(p), scope.Capacity(p), scope.Interval(p));
    var c := Configured(b, scope.Count(p), scope.Capacity(p), scope.Interval(p));
    if c.updated != ZERO_TIME {
      RefillKeepsSane(c, t);
      hide Refilled, Configured, Allowance;
    }
  }

  lemma ConfiguredAgain(b: Bucket, t: Time, p: EvictionPolicy, scope: Scope)
    requires scope.Usable(p) && ReadyAt(b, p, scope, t)
    ensures BucketAt(b, scope.Count(p), scope.Capacity(p), scope.Interval(p), t) == Refilled(b, t)
    ensures ReadyAt(Refilled(b, t), p, scope, t)
    ensures Refilled(b, t).updated == t
  {
    RefillKeepsSane(b, t);
    hide Refilled;
  }

  /** A repeat is granted exactly when both buckets have a token by then. */
  lemma GrantedIffDue(b: Budgets, c: Call, p: EvictionPolicy)
    requires NodeScope(c.lossy, c.node).Usable(p) && GlobalScope(c.lossy).Usable(p)
    requires ReadyAt(NodeScope(c.lossy, c.node).BucketIn(b), p, NodeScope(c.lossy, c.node), c.now)
    requires ReadyAt(GlobalScope(c.lossy).BucketIn(b), p, GlobalScope(c.lossy), c.now)
    ensures Step(b, c, p).granted <==> Due(b, c, p, c.now)
  {
    ConfiguredAgain(NodeScope(c.lossy, c.node).BucketIn(b), c.now, p, NodeScope(c.lossy, c.node));
    ConfiguredAgain(GlobalScope(c.lossy).BucketIn(b), c.now, p, GlobalScope(c.lossy));
    hide Refilled, Configured, WaitForOne, BucketAt, Allowance;
  }

  /** A refused call moves the clock of its buckets and nothing that decides the next grant. */
  lemma RefusedStepKeepsDue(b: Budgets, d: Call, p: EvictionPolicy, scope: Scope, t0: Time, t: Time)
    requires scope.Usable(p) && ReadyAt(scope.BucketIn(b), p, scope, t0) && t0 <= d.now <= t
    requires scope.Covers(d) ==> !Step(b, d, p).granted
    ensures ReadyAt(scope.BucketIn(Step(b, d, p).budgets), p, scope, d.now)
    ensures HasTokenAt(scope.BucketIn(Step(b, d, p).budgets), t) <==> HasTokenAt(scope.BucketIn(b), t)
  {
    StepSpendsBothScopes(b, d, p, scope);
    hide Step, Refilled, HasTokenAt;
    if scope.Covers(d) {
      ConfiguredAgain(scope.BucketIn(b), d.now, p, scope);
      EarlierRefillKeepsWait(scope.BucketIn(b), d.now, t);
      hide BucketAt;
    }
  }

  lemma {:induction false} RefusedRunKeepsDue(
    b: Budgets, between: seq<Call>, p: EvictionPolicy, scope: Scope, t0: Time, t: Time)
    requires scope.Usable(p) && ReadyAt(scope.BucketIn(b), p, scope, t0) && t0 <= t
    requires Ordered(between) && forall i | 0 <= i < |between| :: t0 <= between[i].now <= t
    requires Granted(b, between, p, GlobalScope(scope.lossy)) == 0
    ensures ReadyAt(scope.BucketIn(After(b, between, p)), p, scope, t)
    ensures HasTokenAt(scope.BucketIn(After(b, between, p)), t) <==> HasTokenAt(scope.BucketIn(b), t)
    decreases |between|
  {
    if between != [] {
      hide Step, HasTokenAt, Scope.Usable;
      RefusedStepKeepsDue(b, between[0], p, scope, t0, t);
      RefusedRunKeepsDue(Step(b, between[0], p).budgets, between[1..], p, scope, between[0].now, t);
    }
  }

  /** The instant at which a bucket just refilled next has a token. */
  lemma DueFromWait(b: Bucket, p: EvictionPolicy, scope: Scope, t: Time)
    requires ReadyAt(b, p, scope, b.updated) && b.updated <= t
    ensures HasTokenAt(b, t) <==> t >= b.updated + WaitForOne(b)
    ensures WaitForOne(b) >= 0 && (b.tokens < 1 ==> WaitForOne(b) > 0)
  {
    WaitIsExact(b, t);
    hide HasTokenAt, WaitForOne;
  }

  lemma RefusalWait(b: Budgets, c: Call, p: EvictionPolicy, t: Time)
    requires NodeScope(c.lossy, c.node).Usable(p) && GlobalScope(c.lossy).Usable(p)
    requires Usual(NodeScope(c.lossy, c.node).BucketIn(b), c.now) && Usual(GlobalScope(c.lossy).BucketIn(b), c.now)
    requires ZERO_TIME < c.now <= t && !Step(b, c, p).granted
    ensures Step(b, c, p).wait > 0
    ensures ReadyAt(NodeScope(c.lossy, c.node).BucketIn(Step(b, c, p).budgets), p, NodeScope(c.lossy, c.node), c.now)
    ensures ReadyAt(GlobalScope(c.lossy).BucketIn(Step(b, c, p).budgets), p, GlobalScope(c.lossy), c.now)
    ensures Due(Step(b, c, p).budgets, c, p, t) <==> t >= c.now + Step(b, c, p).wait
  {
    var ns, gs := NodeScope(c.lossy, c.node), GlobalScope(c.lossy);
    FoundReady(ns.BucketIn(b), c.now, p, ns);
    FoundReady(gs.BucketIn(b), c.now, p, gs);
    hide BucketAt, HasTokenAt, WaitForOne, Scope.Usable;
    DueFromWait(ns.BucketIn(Step(b, c, p).budgets), p, ns, t);
    DueFromWait(gs.BucketIn(Step(b, c, p).budgets), p, gs, t);
    hide Allowance;
  }

  /**
   The wait of a refusal is exact. However many calls come in between, from any node, as long
   as none of the class is granted, the same call is refused before now + wait and granted
   from then on.
   */
  lemma RefusalWaitIsExact(b: Budgets, c: Call, p: EvictionPolicy, between: seq<Call>, t: Time)
    requires NodeScope(c.lossy, c.node).Usable(p) && GlobalScope(c.lossy).Usable(p)
    requires Usual(NodeScope(c.lossy, c.node).BucketIn(b), c.now) && Usual(GlobalScope(c.lossy).BucketIn(b), c.now)
    requires ZERO_TIME < c.now && !Step(b, c, p).granted
    requires Ordered(between) && c.now <= t && forall i | 0 <= i < |between| :: c.now <= between[i].now <= t
    requires Granted(Step(b, c, p).budgets, between, p, GlobalScope(c.lossy)) == 0
    ensures var r := Step(b, c, p);
            && r.wait > 0
            && (Step(After(r.budgets, between, p), c.(now := t), p).granted <==> t >= c.now + r.wait)
  {
    var ns, gs := NodeScope(c.lossy, c.node), GlobalScope(c.lossy);
    hide Step, HasTokenAt, Scope.Usable, Usual, After, Granted, Scope.BucketIn, ReadyAt;
    RefusalWait(b, c, p, t);
    RefusedRunKeepsDue(Step(b, c, p).budgets, between, p, ns, c.now, t);
    RefusedRunKeepsDue(Step(b, c, p).budgets, between, p, gs, c.now, t);
    GrantedIffDue(After(Step(b, c, p).budgets, between, p), c.(now := t), p);
  }
}
