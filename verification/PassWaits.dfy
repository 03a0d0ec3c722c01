/** The wait that a rate-limited Pod is given is exact over runs of passes. */
module PassWaits {
  import opened Clock
  import opened EvictionPolicies
  import opened TokenBuckets
  import opened EvictionBudgets
  import opened BudgetRuns
  import opened BudgetTheorems
  import opened Pods
  import opened EvictionRetries
  import opened EvictionPasses
  import opened PassLaws
  import opened PassRuns

  /** The state in which a pass comes to its n-th Pod. */
  function StateAt(s: Setting, st: PassState, listed: seq<Listed>, n: nat): PassState
    requires n <= |listed|
  {
    Processed(s, st, listed[..n])
  }

  /** A pass up to its n-th Pod, the fate of that one, and the rest. */
  lemma {:induction false} PassInParts(s: Setting, st: PassState, listed: seq<Listed>, n: nat)
    requires n < |listed|
    ensures var at := StateAt(s, st, listed, n);
            && n < |Fates(s, st, listed)|
            && Fates(s, st, listed)[n] == FateOf(s, at.deadlines, at.budgets, listed[n])
            && Processed(s, st, listed) == Processed(s, Applied(s, at, listed[n]), listed[n + 1..])
    decreases n
  {
    hide FateOf, Applied;
    if n > 0 {
      PassInParts(s, Applied(s, st, listed[0]), listed[1..], n - 1);
      assert listed[..n][1..] == listed[1..][..n - 1];
      assert listed[1..][n..] == listed[n + 1..];
    } else {
      assert listed[..0] == [];
    }
  }

  /** A rate-limited Pod is one whose call was refused, and its wait is that of the refusal. */
  lemma LimitIsRefusal(s: Setting, st: PassState, l: Listed)
    ensures var f, r := FateOf(s, st.deadlines, st.budgets, l), Step(st.budgets, CallFor(s, l.pod), s.policy);
            f.Spends() ==>
              && Applied(s, st, l).budgets == r.budgets
              && (f.RateLimited? <==> !r.granted)
              && (f.RateLimited? ==> f.wait == r.wait)
  {
    HeldSpendsNothing(s, st.deadlines, l.pod);
    hide Take, HeldFate, Setting.Considers, BlockedRetryDelay, Deadlined, Counted;
  }

  /** A Pod that called its budgets in a pass: what it found, and what was left. */
  ghost predicate Called(w: Shared, v: Visit, given: EvictionPolicy, hash: RetryKey -> nat, n: nat) {
    && Works(v, given) && n < |v.listed.value| && n < |FatesIn(w, v, given, hash)|
    && FatesIn(w, v, given, hash)[n].Spends()
  }

  function Before(w: Shared, v: Visit, given: EvictionPolicy, hash: RetryKey -> nat, n: nat): PassState
    requires Works(v, given) && n <= |v.listed.value|
  {
    StateAt(SettingOf(v, given, hash), Opened(w, v, v.listed.value), v.listed.value, n)
  }

  function CallOf(v: Visit, given: EvictionPolicy, hash: RetryKey -> nat, n: nat): Call
    requires v.listed.Some? && n < |v.listed.value|
  {
    CallFor(SettingOf(v, given, hash), v.listed.value[n].pod)
  }

  /** No request of a class before, or after, a Pod of a pass. */
  ghost predicate NoneBefore(w: Shared, v: Visit, given: EvictionPolicy, hash: RetryKey -> nat, n: nat, lossy: bool)
    requires Works(v, given) && n <= |v.listed.value|
  {
    AskedIn(SettingOf(v, given, hash), Opened(w, v, v.listed.value), v.listed.value[..n], GlobalScope(lossy)) == 0
  }

  ghost predicate NoneAfter(w: Shared, v: Visit, given: EvictionPolicy, hash: RetryKey -> nat, n: nat, lossy: bool)
    requires Works(v, given) && n < |v.listed.value|
  {
    var s := SettingOf(v, given, hash);
    AskedIn(s, Applied(s, Before(w, v, given, hash, n), v.listed.value[n]), v.listed.value[n + 1..], GlobalScope(lossy)) == 0
  }

  /** Budget calls between two states, none of them of the class granted, all in a stretch of time. */
  ghost predicate Quiet(b: Budgets, calls: seq<Call>, after: Budgets, p: EvictionPolicy, lossy: bool, t0: Time, t: Time) {
    && after == After(b, calls, p) && Granted(b, calls, p, GlobalScope(lossy)) == 0
    && Ordered(calls) && forall i | 0 <= i < |calls| :: t0 <= calls[i].now <= t
  }

  lemma QuietJoins(
    a: Budgets, x: seq<Call>, b: Budgets, y: seq<Call>, c: Budgets, p: EvictionPolicy, lossy: bool, t0: Time, t: Time, u: Time)
    requires Quiet(a, x, b, p, lossy, t0, t) && Quiet(b, y, c, p, lossy, t, u) && t0 <= t <= u
    ensures Quiet(a, x + y, c, p, lossy, t0, u)
  {
    CallsAppend(a, x, y, p, GlobalScope(lossy));
    hide After, Granted;
    var joined := x + y;
    assert forall i | 0 <= i < |joined| :: joined[i] == if i < |x| then x[i] else y[i - |x|];
  }

  lemma StretchIsQuiet(s: Setting, st: PassState, listed: seq<Listed>, lossy: bool)
    requires AskedIn(s, st, listed, GlobalScope(lossy)) == 0 && ZERO_TIME < s.now
    ensures Quiet(st.budgets, Calls(s, st, listed), Processed(s, st, listed).budgets, s.policy, lossy, s.now, s.now)
  {
    TokensAreRequests(s, st, listed, GlobalScope(lossy));
    CallsAreNow(s, st, listed);
    var calls := Calls(s, st, listed);
    hide Calls, After, Granted, Processed, AskedIn;
    assert forall i | 0 <= i < |calls| :: calls[i] in calls;
  }

  lemma RunIsQuiet(w: Shared, visits: seq<Visit>, given: EvictionPolicy, hash: RetryKey -> nat, lossy: bool, t0: Time, t: Time)
    requires InTime(visits) && forall k | 0 <= k < |visits| :: t0 <= visits[k].now <= t
    requires RunRequests(w, visits, given, hash, GlobalScope(lossy)) == 0
    ensures Quiet(w.budgets, RunCalls(w, visits, given, hash), Run(w, visits, given, hash).budgets, given.Normalized(), lossy, t0, t)
  {
    RunRequestsAreGrants(w, visits, given, hash, GlobalScope(lossy));
    RunCallsAreInTime(w, visits, given, hash, t0, t);
    hide RunCalls, Run, RunRequests, After, Granted, EvictionPolicy.Normalized, Ordered;
  }

  /** The buckets that a Pod of a pass finds are unused, or as the source keeps them. */
  lemma FoundBucketIsUsual(visits: seq<Visit>, i: nat, n: nat, given: EvictionPolicy, hash: RetryKey -> nat, scope: Scope)
    requires scope.Usable(given.Normalized()) && InTime(visits) && i < |visits|
    requires Works(visits[i], given) && n <= |visits[i].listed.value|
    ensures Usual(scope.BucketIn(Before(Run(START, visits[..i], given, hash), visits[i], given, hash, n).budgets), visits[i].now)
  {
    var v, w, p := visits[i], Run(START, visits[..i], given, hash), given.Normalized();
    var s, st := SettingOf(v, given, hash), Opened(w, v, v.listed.value);
    SliceIsInTime(visits, 0, i);
    assert visits[0..i] == visits[..i];
    RunKeepsBucketKnown(visits[..i], given, hash, scope, v.now);
    assert s.policy == p && st.budgets == w.budgets && s.now == v.now;
    hide SettingOf, Opened, Run, EvictionPolicy.Normalized;
    var calls := Calls(s, st, v.listed.value[..n]);
    TokensAreRequests(s, st, v.listed.value[..n], scope);
    CallsAreNow(s, st, v.listed.value[..n]);
    hide Calls, Processed, AskedIn, Granted, Known, Scope.Usable, Scope.BucketIn;
    assert forall k | 0 <= k < |calls| :: calls[k] in calls;
    RunKeepsKnown(w.budgets, calls, p, scope, v.now, v.now);
    KnownIsUsual(scope.BucketIn(After(w.budgets, calls, p)), scope, p, v.now);
    hide After;
  }

  lemma KnownIsUsual(b: Bucket, scope: Scope, p: EvictionPolicy, t: Time)
    requires Known(b, scope, p, t)
    ensures Usual(b, t)
  {
  }

  /** What a rate-limited Pod leaves: a refused call, and what it says of the wait. */
  lemma LimitedPod(w: Shared, v: Visit, given: EvictionPolicy, hash: RetryKey -> nat, n: nat)
    requires Called(w, v, given, hash, n)
    ensures var f, st := FatesIn(w, v, given, hash)[n], Before(w, v, given, hash, n);
            var r := Step(st.budgets, CallOf(v, given, hash, n), given.Normalized());
            && (f.RateLimited? <==> !r.granted)
            && (f.RateLimited? ==> f.wait == r.wait)
            && Applied(SettingOf(v, given, hash), st, v.listed.value[n]).budgets == r.budgets
  {
    PassInParts(SettingOf(v, given, hash), Opened(w, v, v.listed.value), v.listed.value, n);
    LimitIsRefusal(SettingOf(v, given, hash), Before(w, v, given, hash, n), v.listed.value[n]);
    hide FateOf, Applied, Step, StateAt, Fates, Opened, EvictionPolicy.Normalized;
  }

  /** From a Pod of one pass to a Pod of a later one, the budgets see only refusals of its class. */
  lemma QuietBetween(
    visits: seq<Visit>, i: nat, n: nat, j: nat, m: nat, given: EvictionPolicy, hash: RetryKey -> nat, lossy: bool)
    returns (calls: seq<Call>)
    requires InTime(visits) && i < j < |visits|
    requires Works(visits[i], given) && n < |visits[i].listed.value|
    requires Works(visits[j], given) && m <= |visits[j].listed.value|
    requires NoneAfter(Run(START, visits[..i], given, hash), visits[i], given, hash, n, lossy)
    requires RunRequests(Run(START, visits[..i + 1], given, hash), visits[i + 1..j], given, hash, GlobalScope(lossy)) == 0
    requires NoneBefore(Run(START, visits[..j], given, hash), visits[j], given, hash, m, lossy)
    ensures var wi, wj := Run(START, visits[..i], given, hash), Run(START, visits[..j], given, hash);
            var left := Applied(SettingOf(visits[i], given, hash), Before(wi, visits[i], given, hash, n), visits[i].listed.value[n]);
            Quiet(left.budgets, calls, Before(wj, visits[j], given, hash, m).budgets, given.Normalized(), lossy,
                  visits[i].now, visits[j].now)
  {
    var wi, wj := Run(START, visits[..i], given, hash), Run(START, visits[..j], given, hash);
    var vi, vj := visits[i], visits[j];
    var si, sj := SettingOf(vi, given, hash), SettingOf(vj, given, hash);
    var left := Applied(si, Before(wi, vi, given, hash, n), vi.listed.value[n]);
    RunExtends(START, visits, i, given, hash);
    PassInParts(si, Opened(wi, vi, vi.listed.value), vi.listed.value, n);
    RunSplits(START, visits, i + 1, j, given, hash);
    SliceIsInTime(visits, i + 1, j);
    assert Run(START, visits[..i + 1], given, hash).budgets == Processed(si, left, vi.listed.value[n + 1..]).budgets;
    assert Before(wj, vj, given, hash, m).budgets == Processed(sj, Opened(wj, vj, vj.listed.value), vj.listed.value[..m]).budgets;
    assert Opened(wj, vj, vj.listed.value).budgets == wj.budgets;
    var between := visits[i + 1..j];
    assert forall k | 0 <= k < |between| :: vi.now <= between[k].now <= vj.now;
    StretchIsQuiet(si, left, vi.listed.value[n + 1..], lossy);
    RunIsQuiet(Run(START, visits[..i + 1], given, hash), between, given, hash, lossy, vi.now, vj.now);
    StretchIsQuiet(sj, Opened(wj, vj, vj.listed.value), vj.listed.value[..m], lossy);
    var first, middle := Calls(si, left, vi.listed.value[n + 1..]), RunCalls(Run(START, visits[..i + 1], given, hash), visits[i + 1..j], given, hash);
    var last := Calls(sj, Opened(wj, vj, vj.listed.value), vj.listed.value[..m]);
    hide Quiet, Run, Pass, Processed, Applied, Calls, RunCalls, AskedIn, RunRequests, Opened, EvictionPolicy.Normalized, InTime, StateAt;
    QuietJoins(left.budgets, first, Run(START, visits[..i + 1], given, hash).budgets, middle, wj.budgets,
               given.Normalized(), lossy, vi.now, vi.now, vj.now);
    QuietJoins(left.budgets, first + middle, wj.budgets, last, Before(wj, vj, given, hash, m).budgets,
               given.Normalized(), lossy, vi.now, vj.now, vj.now);
    calls := first + middle + last;
  }

  lemma {:induction false} RunSplits(w: Shared, visits: seq<Visit>, i: nat, j: nat, given: EvictionPolicy, hash: RetryKey -> nat)
    requires i <= j <= |visits|
    ensures Run(w, visits[..j], given, hash) == Run(Run(w, visits[..i], given, hash), visits[i..j], given, hash)
    decreases i
  {
    hide Pass;
    if i == 0 {
      assert visits[0..j] == visits[..j] && visits[..0] == [];
    } else {
      var next := Pass(w, visits[0], given, hash).shared;
      RunSplits(next, visits[1..], i - 1, j - 1, given, hash);
      assert visits[..j][1..] == visits[1..][..j - 1] && visits[..i][1..] == visits[1..][..i - 1];
      assert visits[1..][i - 1..j - 1] == visits[i..j];
    }
  }

  /**
   The wait of a rate-limited Pod is exact over runs. If a Pod is rate-limited with a wait, and until a
   later pass of its node comes to call the budgets for a Pod of the same class, no Pod of that class is
   asked for on any node, then that one is rate-limited exactly if it comes before the wait is over.
   */
  lemma RateLimitLiftsExactly(
    visits: seq<Visit>, i: nat, n: nat, j: nat, m: nat, given: EvictionPolicy, hash: RetryKey -> nat, lossy: bool)
    requires InTime(visits) && i < j < |visits| && visits[i].node == visits[j].node
    requires NodeScope(lossy, visits[i].node).Usable(given.Normalized()) && GlobalScope(lossy).Usable(given.Normalized())
    requires Called(Run(START, visits[..i], given, hash), visits[i], given, hash, n)
    requires FatesIn(Run(START, visits[..i], given, hash), visits[i], given, hash)[n].RateLimited?
    requires Called(Run(START, visits[..j], given, hash), visits[j], given, hash, m)
    requires visits[i].listed.value[n].pod.AllowsLossy() == lossy == visits[j].listed.value[m].pod.AllowsLossy()
    requires NoneAfter(Run(START, visits[..i], given, hash), visits[i], given, hash, n, lossy)
    requires RunRequests(Run(START, visits[..i + 1], given, hash), visits[i + 1..j], given, hash, GlobalScope(lossy)) == 0
    requires NoneBefore(Run(START, visits[..j], given, hash), visits[j], given, hash, m, lossy)
    ensures var wait := FatesIn(Run(START, visits[..i], given, hash), visits[i], given, hash)[n].wait;
            && wait > 0
            && (FatesIn(Run(START, visits[..j], given, hash), visits[j], given, hash)[m].RateLimited? <==>
                visits[j].now < visits[i].now + wait)
  {
    var wi, wj, p := Run(START, visits[..i], given, hash), Run(START, visits[..j], given, hash), given.Normalized();
    var c := CallOf(visits[i], given, hash, n);
    var b := Before(wi, visits[i], given, hash, n).budgets;
    assert c == Call(lossy, visits[i].node, visits[i].now);
    assert CallOf(visits[j], given, hash, m) == c.(now := visits[j].now);
    LimitedPod(wi, visits[i], given, hash, n);
    LimitedPod(wj, visits[j], given, hash, m);
    FoundBucketIsUsual(visits, i, n, given, hash, NodeScope(lossy, visits[i].node));
    FoundBucketIsUsual(visits, i, n, given, hash, GlobalScope(lossy));
    var calls := QuietBetween(visits, i, n, j, m, given, hash, lossy);
    hide Before, FatesIn, Run, Step, Applied, Usual, Scope.Usable, Scope.BucketIn, EvictionPolicy.Normalized, NoneAfter, NoneBefore;
    hide RunRequests, Called, After, Granted, Ordered, Pod.AllowsLossy;
    RefusalWaitIsExact(b, c, p, calls, visits[j].now);
  }
}
