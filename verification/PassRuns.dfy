/** Runs of passes over any nodes: how often the API is asked, and when a blocked Pod is asked again. */
module PassRuns {
  import opened Clock
  import opened Names
  import opened EvictionPolicies
  import opened EvictionBudgets
  import opened BudgetRuns
  import opened BudgetTheorems
  import opened EvictionMatrix
  import opened Pods
  import opened PodGate
  import opened EvictionRetries
  import opened EvictionPasses
  import opened PassLaws

  /** What the passes of a run leave behind. */
  function Run(w: Shared, visits: seq<Visit>, given: EvictionPolicy, hash: RetryKey -> nat): Shared
    decreases |visits|
  {
    if visits == [] then w else Run(Pass(w, visits[0], given, hash).shared, visits[1..], given, hash)
  }

  ghost predicate InTime(visits: seq<Visit>) {
    && (forall i | 0 <= i < |visits| :: ZERO_TIME < visits[i].now)
    && (forall i, j | 0 <= i < j < |visits| :: visits[i].now <= visits[j].now)
  }

  lemma {:induction false} RunExtends(w: Shared, visits: seq<Visit>, k: nat, given: EvictionPolicy, hash: RetryKey -> nat)
    requires k < |visits|
    ensures Run(w, visits[..k + 1], given, hash) == Pass(Run(w, visits[..k], given, hash), visits[k], given, hash).shared
    decreases k
  {
    hide Pass;
    assert visits[..k + 1][0] == visits[0] && visits[..k + 1][1..] == visits[1..][..k];
    if k > 0 {
      RunExtends(Pass(w, visits[0], given, hash).shared, visits[1..], k - 1, given, hash);
      assert visits[..k][1..] == visits[1..][..k - 1];
      assert visits[1..][..k - 1 + 1] == visits[1..][..k];
    } else {
      assert visits[1..][..0] == [];
    }
  }

  // --- The rate of requests -----------------------------------------------------------

  function PassCalls(w: Shared, v: Visit, given: EvictionPolicy, hash: RetryKey -> nat): seq<Call> {
    if Works(v, given) then Calls(SettingOf(v, given, hash), Opened(w, v, v.listed.value), v.listed.value) else []
  }

  function PassRequests(w: Shared, v: Visit, given: EvictionPolicy, hash: RetryKey -> nat, scope: Scope): nat {
    if Works(v, given) then AskedIn(SettingOf(v, given, hash), Opened(w, v, v.listed.value), v.listed.value, scope) else 0
  }

  function RunCalls(w: Shared, visits: seq<Visit>, given: EvictionPolicy, hash: RetryKey -> nat): seq<Call>
    decreases |visits|
  {
    if visits == [] then []
    else PassCalls(w, visits[0], given, hash) + RunCalls(Pass(w, visits[0], given, hash).shared, visits[1..], given, hash)
  }

  /** The eviction requests that a run sends in a scope. */
  function RunRequests(w: Shared, visits: seq<Visit>, given: EvictionPolicy, hash: RetryKey -> nat, scope: Scope): nat
    decreases |visits|
  {
    if visits == [] then 0
    else
      PassRequests(w, visits[0], given, hash, scope) +
      RunRequests(Pass(w, visits[0], given, hash).shared, visits[1..], given, hash, scope)
  }

  lemma {:induction false} CallsAppend(b: Budgets, first: seq<Call>, rest: seq<Call>, p: EvictionPolicy, scope: Scope)
    ensures After(b, first + rest, p) == After(After(b, first, p), rest, p)
    ensures Granted(b, first + rest, p, scope) == Granted(b, first, p, scope) + Granted(After(b, first, p), rest, p, scope)
    decreases |first|
  {
    hide Step, Scope.Covers;
    if first == [] {
      assert first + rest == rest;
    } else {
      assert (first + rest)[1..] == first[1..] + rest;
      CallsAppend(Step(b, first[0], p).budgets, first[1..], rest, p, scope);
    }
  }

  lemma PassRequestsAreGrants(w: Shared, v: Visit, given: EvictionPolicy, hash: RetryKey -> nat, scope: Scope)
    ensures var calls := PassCalls(w, v, given, hash);
            && Pass(w, v, given, hash).shared.budgets == After(w.budgets, calls, given.Normalized())
            && PassRequests(w, v, given, hash, scope) == Granted(w.budgets, calls, given.Normalized(), scope)
  {
    if Works(v, given) {
      TokensAreRequests(SettingOf(v, given, hash), Opened(w, v, v.listed.value), v.listed.value, scope);
    }
    hide EvictionPolicy.Normalized, Calls, AskedIn, Pruned, Processed;
  }

  lemma {:induction false} RunRequestsAreGrants(
    w: Shared, visits: seq<Visit>, given: EvictionPolicy, hash: RetryKey -> nat, scope: Scope)
    ensures var calls, p := RunCalls(w, visits, given, hash), given.Normalized();
            && Run(w, visits, given, hash).budgets == After(w.budgets, calls, p)
            && RunRequests(w, visits, given, hash, scope) == Granted(w.budgets, calls, p, scope)
    decreases |visits|
  {
    hide Pass, PassCalls, PassRequests, EvictionPolicy.Normalized;
    if visits != [] {
      var next := Pass(w, visits[0], given, hash).shared;
      PassRequestsAreGrants(w, visits[0], given, hash, scope);
      RunRequestsAreGrants(next, visits[1..], given, hash, scope);
      CallsAppend(w.budgets, PassCalls(w, visits[0], given, hash), RunCalls(next, visits[1..], given, hash), given.Normalized(), scope);
      hide After, Granted;
    }
  }

  lemma {:induction false} CallsAreNow(s: Setting, st: PassState, listed: seq<Listed>)
    ensures forall c | c in Calls(s, st, listed) :: c.now == s.now
    decreases |listed|
  {
    hide FateOf, Applied, Pod.AllowsLossy;
    if listed != [] {
      CallsAreNow(s, Applied(s, st, listed[0]), listed[1..]);
    }
  }

  lemma {:induction false} RunCallsAreInTime(
    w: Shared, visits: seq<Visit>, given: EvictionPolicy, hash: RetryKey -> nat, t0: Time, t: Time)
    requires InTime(visits) && forall i | 0 <= i < |visits| :: t0 <= visits[i].now <= t
    ensures var calls := RunCalls(w, visits, given, hash);
            Ordered(calls) && forall i | 0 <= i < |calls| :: t0 <= calls[i].now <= t
    decreases |visits|
  {
    hide Pass;
    if visits != [] {
      var v, next := visits[0], Pass(w, visits[0], given, hash).shared;
      RunCallsAreInTime(next, visits[1..], given, hash, v.now, t);
      if Works(v, given) {
        CallsAreNow(SettingOf(v, given, hash), Opened(w, v, v.listed.value), v.listed.value);
      }
      var first, rest := PassCalls(w, v, given, hash), RunCalls(next, visits[1..], given, hash);
      assert forall c | c in first :: c.now == v.now;
      hide PassCalls;
      assert forall i | 0 <= i < |first| :: first[i] in first;
      JoinedCallsAreInTime(first, rest, v.now);
      hide Ordered;
    }
  }

  lemma JoinedCallsAreInTime(first: seq<Call>, rest: seq<Call>, t: Time)
    requires ZERO_TIME < t && Ordered(rest)
    requires forall i | 0 <= i < |first| :: first[i].now == t
    requires forall i | 0 <= i < |rest| :: t <= rest[i].now
    ensures Ordered(first + rest)
    ensures forall i | 0 <= i < |first + rest| :: (first + rest)[i] == if i < |first| then first[i] else rest[i - |first|]
  {
  }

  /** A fresh controller process. */
  const START := Shared(map[], NO_BUDGETS)

  /** The bucket of a scope after calls from process start is unused or steady. */
  lemma CallsKeepKnown(calls: seq<Call>, p: EvictionPolicy, scope: Scope, t: Time)
    requires scope.Usable(p) && Ordered(calls) && forall k | 0 <= k < |calls| :: calls[k].now <= t
    ensures Known(scope.BucketIn(After(NO_BUDGETS, calls, p)), scope, p, t)
  {
    UnusedIsKnown(scope, p);
    hide Known, Scope.Usable, Scope.BucketIn;
    if calls == [] {
      assert After(NO_BUDGETS, calls, p) == NO_BUDGETS;
    } else {
      hide After;
      assert forall k | 0 <= k < |calls| :: calls[0].now <= calls[k].now;
      RunKeepsKnown(NO_BUDGETS, calls, p, scope, calls[0].now, t);
    }
  }

  /** The bucket of a scope after a run of passes is unused or steady. */
  lemma RunKeepsBucketKnown(visits: seq<Visit>, given: EvictionPolicy, hash: RetryKey -> nat, scope: Scope, t: Time)
    requires scope.Usable(given.Normalized()) && InTime(visits)
    requires forall k | 0 <= k < |visits| :: visits[k].now <= t
    ensures Known(scope.BucketIn(Run(START, visits, given, hash).budgets), scope, given.Normalized(), t)
  {
    hide Run, RunCalls, RunRequests, EvictionPolicy.Normalized, Scope.Usable, Known, Granted, After, Ordered, Scope.BucketIn;
    RunRequestsAreGrants(START, visits, given, hash, scope);
    RunCallsAreInTime(START, visits, given, hash, if visits == [] then t else visits[0].now, t);
    CallsKeepKnown(RunCalls(START, visits, given, hash), given.Normalized(), scope, t);
  }

  /** In any stretch of a run, requests are bounded by the burst and the length of the stretch. */
  lemma RequestRateFrom(
    w: Shared, visits: seq<Visit>, given: EvictionPolicy, hash: RetryKey -> nat, scope: Scope, t0: Time, t: Time)
    requires scope.Usable(given.Normalized()) && InTime(visits) && t0 <= t
    requires Known(scope.BucketIn(w.budgets), scope, given.Normalized(), t0)
    requires forall k | 0 <= k < |visits| :: t0 <= visits[k].now <= t
    ensures scope.Count(given.Normalized()) >= 1
    ensures var p := given.Normalized();
            RunRequests(w, visits, given, hash, scope) * scope.TokenTime(p)
            <= scope.Capacity(p) * scope.TokenTime(p) + (t - t0)
  {
    UsableIsPositive(scope, given.Normalized());
    hide Run, RunCalls, RunRequests, EvictionPolicy.Normalized, Scope.Usable, Scope.TokenTime, Known, Granted, After, Ordered;
    hide Scope.Count, Scope.Capacity, Scope.BucketIn;
    RunRequestsAreGrants(w, visits, given, hash, scope);
    RunCallsAreInTime(w, visits, given, hash, t0, t);
    RateInWindow(w.budgets, RunCalls(w, visits, given, hash), given.Normalized(), scope, t0, t);
  }

  /**
   From process start, in every window of every run of passes over any nodes, with any Pods and any
   API answers, the requests of a scope stay within its burst and its rate.
   */
  lemma RequestRateInEveryWindow(
    visits: seq<Visit>, i: nat, j: nat, given: EvictionPolicy, hash: RetryKey -> nat, scope: Scope)
    requires scope.Usable(given.Normalized()) && InTime(visits) && i < j <= |visits|
    ensures scope.Count(given.Normalized()) >= 1
    ensures var p := given.Normalized();
            RunRequests(Run(START, visits[..i], given, hash), visits[i..j], given, hash, scope) * scope.TokenTime(p)
            <= scope.Capacity(p) * scope.TokenTime(p) + (visits[j - 1].now - visits[i].now)
  {
    hide Run, RunRequests, EvictionPolicy.Normalized, Scope.Usable, Scope.TokenTime, Known;
    hide Scope.Count, Scope.Capacity, Scope.BucketIn;
    SliceIsInTime(visits, 0, i);
    SliceIsInTime(visits, i, j);
    assert visits[0..i] == visits[..i];
    RunKeepsBucketKnown(visits[..i], given, hash, scope, visits[i].now);
    RequestRateFrom(Run(START, visits[..i], given, hash), visits[i..j], given, hash, scope, visits[i].now, visits[j - 1].now);
  }

  lemma SliceIsInTime(visits: seq<Visit>, i: nat, j: nat)
    requires InTime(visits) && i <= j <= |visits|
    ensures InTime(visits[i..j])
    ensures i < j ==> forall k | 0 <= k < j - i :: visits[i].now <= visits[i..j][k].now <= visits[j - 1].now
    ensures i == 0 && j < |visits| ==> forall k | 0 <= k < j :: visits[0].now <= visits[..j][k].now <= visits[j].now
  {
  }

  // --- Retries ---------------------------------------------------------------------------

  /** A Pod of the key that a pass drops from the deadlines: refused by a gate, or audited. */
  predicate Drops(s: Setting, l: Listed, key: RetryKey) {
    && KeyOf(s.node, l.pod) == key
    && s.Considers(l.pod)
    && (s.OnlyAudits() || Gate(l.pod, s.storage, s.policy, l.pod.AllowsLossy()).Some?)
  }

  /** A pass on the key's node that is disabled or inactive, or does not list the Pod, or drops it. */
  predicate Releases(v: Visit, given: EvictionPolicy, hash: RetryKey -> nat, key: RetryKey) {
    && key.node == v.node
    && (|| IsOff(given)
        || v.evicts == NoEviction
        || (v.listed.Some? &&
            (|| key !in ListedKeys(v.node, PodsOf(v.listed.value))
             || exists l | l in v.listed.value :: Drops(SettingOf(v, given, hash), l, key))))
  }

  /** A pass sends a request for the key. */
  predicate Asks(w: Shared, v: Visit, given: EvictionPolicy, hash: RetryKey -> nat, key: RetryKey) {
    Works(v, given) && AsksFor(SettingOf(v, given, hash), Opened(w, v, v.listed.value), v.listed.value, key)
  }

  predicate AsksFor(s: Setting, st: PassState, listed: seq<Listed>, key: RetryKey)
    decreases |listed|
  {
    listed != [] &&
    ((FateOf(s, st.deadlines, st.budgets, listed[0]).Asked() && KeyOf(s.node, listed[0].pod) == key)
     || AsksFor(s, Applied(s, st, listed[0]), listed[1..], key))
  }

  /** One Pod, under an unexpired deadline of the key. */
  lemma PodKeepsDeadline(s: Setting, st: PassState, l: Listed, key: RetryKey)
    requires key in st.deadlines && ZERO_TIME < s.now < st.deadlines[key] && !Drops(s, l, key)
    ensures key in Applied(s, st, l).deadlines && Applied(s, st, l).deadlines[key] == st.deadlines[key]
    ensures !(FateOf(s, st.deadlines, st.budgets, l).Asked() && KeyOf(s.node, l.pod) == key)
  {
    hide Take, Gate, BlockedRetryDelay, Counted, Setting.Considers, Setting.OnlyAudits;
  }

  lemma {:induction false} PodsKeepDeadline(s: Setting, st: PassState, listed: seq<Listed>, key: RetryKey)
    requires key in st.deadlines && ZERO_TIME < s.now < st.deadlines[key]
    requires forall l | l in listed :: !Drops(s, l, key)
    ensures key in Processed(s, st, listed).deadlines && Processed(s, st, listed).deadlines[key] == st.deadlines[key]
    ensures !AsksFor(s, st, listed, key)
    decreases |listed|
  {
    hide Drops, Applied, FateOf;
    if listed != [] {
      PodKeepsDeadline(s, st, listed[0], key);
      PodsKeepDeadline(s, Applied(s, st, listed[0]), listed[1..], key);
    }
  }

  /** No pass removes or asks past an unexpired deadline of a key it does not release. */
  lemma PassKeepsDeadline(w: Shared, v: Visit, given: EvictionPolicy, hash: RetryKey -> nat, key: RetryKey)
    requires key in w.deadlines && ZERO_TIME < v.now < w.deadlines[key] && !Releases(v, given, hash, key)
    ensures key in Pass(w, v, given, hash).shared.deadlines
    ensures Pass(w, v, given, hash).shared.deadlines[key] == w.deadlines[key]
    ensures !Asks(w, v, given, hash, key)
  {
    hide EvictionPolicy.Normalized, Drops, FateOf, Applied, ListedKeys, PodsOf;
    if Works(v, given) {
      var s, st, listed := SettingOf(v, given, hash), Opened(w, v, v.listed.value), v.listed.value;
      forall l | l in listed
        ensures !Drops(s, l, key)
      {
        if key.node != v.node {
          ForeignKeyIsNotDropped(s, l, key);
        }
      }
      PodsKeepDeadline(s, st, listed, key);
    }
  }

  lemma ForeignKeyIsNotDropped(s: Setting, l: Listed, key: RetryKey)
    requires key.node != s.node
    ensures !Drops(s, l, key)
  {
  }

  lemma {:induction false} RunKeepsDeadline(
    w: Shared, visits: seq<Visit>, i: nat, j: nat, given: EvictionPolicy, hash: RetryKey -> nat, key: RetryKey, deadline: Time)
    requires i <= j <= |visits|
    requires var at := Run(w, visits[..i], given, hash).deadlines; key in at && at[key] == deadline
    requires forall k | i <= k < j :: ZERO_TIME < visits[k].now < deadline && !Releases(visits[k], given, hash, key)
    ensures var at := Run(w, visits[..j], given, hash).deadlines; key in at && at[key] == deadline
    decreases j
  {
    hide Releases, Run, Pass;
    if i < j {
      RunKeepsDeadline(w, visits, i, j - 1, given, hash, key, deadline);
      PassKeepsDeadline(Run(w, visits[..j - 1], given, hash), visits[j - 1], given, hash, key);
      RunExtends(w, visits, j - 1, given, hash);
    }
  }

  /** The API lists each Pod once. */
  ghost predicate ListsOnce(listed: seq<Listed>) {
    forall i, j | 0 <= i < j < |listed| ::
      !(listed[i].pod.namespace == listed[j].pod.namespace && listed[i].pod.name == listed[j].pod.name)
  }

  lemma {:induction false} OthersLeaveKeyAlone(s: Setting, st: PassState, listed: seq<Listed>, key: RetryKey)
    requires forall l | l in listed :: KeyOf(s.node, l.pod) != key
    ensures key in Processed(s, st, listed).deadlines <==> key in st.deadlines
    ensures key in st.deadlines ==> Processed(s, st, listed).deadlines[key] == st.deadlines[key]
    decreases |listed|
  {
    hide FateOf, Counted;
    if listed != [] {
      OthersLeaveKeyAlone(s, Applied(s, st, listed[0]), listed[1..], key);
    }
  }

  lemma RefusedPodSetsDeadline(s: Setting, st: PassState, l: Listed)
    ensures var f, key := FateOf(s, st.deadlines, st.budgets, l), KeyOf(s.node, l.pod);
            f.Refused? ==> key in Applied(s, st, l).deadlines && Applied(s, st, l).deadlines[key] == s.now + f.delay
  {
    hide FateOf, Counted, Take;
  }

  lemma OthersHaveOtherKeys(node: NodeName, listed: seq<Listed>)
    requires listed != [] && ListsOnce(listed)
    ensures forall l | l in listed[1..] :: KeyOf(node, l.pod) != KeyOf(node, listed[0].pod)
  {
    forall l | l in listed[1..]
      ensures KeyOf(node, l.pod) != KeyOf(node, listed[0].pod)
    {
      var k :| 0 <= k < |listed[1..]| && listed[1..][k] == l;
      assert listed[k + 1] == l;
    }
  }

  /** A refusal leaves its deadline: the instant of the pass and the delay. */
  lemma {:induction false} RefusalSetsDeadline(s: Setting, st: PassState, listed: seq<Listed>, n: nat)
    requires n < |listed| && ListsOnce(listed)
    requires n < |Fates(s, st, listed)| && Fates(s, st, listed)[n].Refused?
    ensures var key, at := KeyOf(s.node, listed[n].pod), Processed(s, st, listed).deadlines;
            key in at && at[key] == s.now + Fates(s, st, listed)[n].delay
    decreases |listed|
  {
    hide FateOf, Applied;
    if n > 0 {
      assert Fates(s, st, listed)[n] == Fates(s, Applied(s, st, listed[0]), listed[1..])[n - 1];
      RefusalSetsDeadline(s, Applied(s, st, listed[0]), listed[1..], n - 1);
    } else {
      RefusedPodSetsDeadline(s, st, listed[0]);
      OthersHaveOtherKeys(s.node, listed);
      hide ListsOnce;
      OthersLeaveKeyAlone(s, Applied(s, st, listed[0]), listed[1..], KeyOf(s.node, listed[0].pod));
    }
  }

  lemma {:induction false} RefusedWithDelay(s: Setting, st: PassState, listed: seq<Listed>, n: nat)
    requires n < |listed|
    ensures |Fates(s, st, listed)| == |listed|
    ensures Fates(s, st, listed)[n].Refused? ==>
              && listed[n].answer.Rejected?
              && Fates(s, st, listed)[n].delay
                 == BlockedRetryDelay(KeyOf(s.node, listed[n].pod), s.policy, listed[n].answer.seconds, s.hash)
    decreases |listed|
  {
    hide BlockedRetryDelay, Take, Gate;
    FatesOfEach(s, st, listed);
    if n > 0 {
      hide FateOf, Applied;
      RefusedWithDelay(s, Applied(s, st, listed[0]), listed[1..], n - 1);
    }
  }

  lemma {:induction false} FatesOfEach(s: Setting, st: PassState, listed: seq<Listed>)
    ensures |Fates(s, st, listed)| == |listed|
    decreases |listed|
  {
    hide FateOf, Applied;
    if listed != [] {
      FatesOfEach(s, Applied(s, st, listed[0]), listed[1..]);
    }
  }

  /** Asking for a key takes a listed Pod of it that no gate refuses. */
  lemma {:induction false} AskedPodPasses(s: Setting, st: PassState, listed: seq<Listed>, key: RetryKey)
    requires AsksFor(s, st, listed, key)
    ensures exists l | l in listed :: KeyOf(s.node, l.pod) == key && s.Considers(l.pod) && !Drops(s, l, key)
    decreases |listed|
  {
    hide Take, Gate, BlockedRetryDelay, Applied, Setting.Considers, Setting.OnlyAudits;
    if !(FateOf(s, st.deadlines, st.budgets, listed[0]).Asked() && KeyOf(s.node, listed[0].pod) == key) {
      hide FateOf;
      AskedPodPasses(s, Applied(s, st, listed[0]), listed[1..], key);
    } else {
      HeldSpendsNothing(s, st.deadlines, listed[0].pod);
      assert listed[0] in listed;
    }
  }

  lemma AskingDoesNotRelease(w: Shared, v: Visit, given: EvictionPolicy, hash: RetryKey -> nat, key: RetryKey)
    requires Asks(w, v, given, hash, key) && ListsOnce(v.listed.value)
    ensures !Releases(v, given, hash, key)
  {
    var s, listed := SettingOf(v, given, hash), v.listed.value;
    hide EvictionPolicy.Normalized, Drops, Pod.AllowsLossy, AsksFor, Pruned;
    AskedPodPasses(s, Opened(w, v, listed), listed, key);
    var l :| l in listed && KeyOf(s.node, l.pod) == key && s.Considers(l.pod) && !Drops(s, l, key);
    var n :| 0 <= n < |listed| && listed[n] == l;
    assert PodsOf(listed)[n] == l.pod;
    assert l.pod in PodsOf(listed);
    assert key in ListedKeys(v.node, PodsOf(listed));
    forall x | x in listed
      ensures !Drops(s, x, key)
    {
      SameKeySamePod(s, listed, l, x, key);
    }
  }

  lemma SameKeySamePod(s: Setting, listed: seq<Listed>, l: Listed, x: Listed, key: RetryKey)
    requires ListsOnce(listed) && l in listed && x in listed && KeyOf(s.node, l.pod) == key && !Drops(s, l, key)
    ensures !Drops(s, x, key)
  {
    if KeyOf(s.node, x.pod) == key {
      var i, j :| 0 <= i < |listed| && 0 <= j < |listed| && listed[i] == l && listed[j] == x;
      assert i == j;
    }
    hide Gate, Pod.AllowsLossy, Setting.OnlyAudits;
  }

  lemma {:induction false} BacksOffUnderDeadline(s: Setting, st: PassState, listed: seq<Listed>, n: nat)
    requires n < |listed| && ListsOnce(listed) && ZERO_TIME < s.now
    requires s.Considers(listed[n].pod) && !Drops(s, listed[n], KeyOf(s.node, listed[n].pod))
    ensures n < |Fates(s, st, listed)|
    ensures Fates(s, st, listed)[n].BackingOff? <==> Remaining(st.deadlines, KeyOf(s.node, listed[n].pod), s.now) > 0
    decreases |listed|
  {
    FatesOfEach(s, st, listed);
    var key := KeyOf(s.node, listed[n].pod);
    if n > 0 {
      hide FateOf, Counted, Drops, Setting.Considers;
      assert key != KeyOf(s.node, listed[0].pod);
      assert key in Applied(s, st, listed[0]).deadlines <==> key in st.deadlines;
      BacksOffUnderDeadline(s, Applied(s, st, listed[0]), listed[1..], n - 1);
      hide Applied;
    } else {
      hide Take, Gate, BlockedRetryDelay, Setting.Considers, Setting.OnlyAudits;
    }
  }

  /** A Pod that may be asked about backs off exactly as long as its deadline has not come. */
  lemma BacksOffIffDeadlineAhead(w: Shared, v: Visit, given: EvictionPolicy, hash: RetryKey -> nat, n: nat)
    requires ZERO_TIME < v.now && Works(v, given) && ListsOnce(v.listed.value) && n < |v.listed.value|
    requires var s, l := SettingOf(v, given, hash), v.listed.value[n];
             s.Considers(l.pod) && !Drops(s, l, KeyOf(v.node, l.pod))
    ensures n < |FatesIn(w, v, given, hash)|
    ensures var key := KeyOf(v.node, v.listed.value[n].pod);
            FatesIn(w, v, given, hash)[n].BackingOff? <==> key in w.deadlines && v.now < w.deadlines[key]
  {
    hide EvictionPolicy.Normalized, Drops, Pod.AllowsLossy, Fates;
    var s, listed := SettingOf(v, given, hash), v.listed.value;
    BacksOffUnderDeadline(s, Opened(w, v, listed), listed, n);
    assert PodsOf(listed)[n] == listed[n].pod;
    assert listed[n].pod in PodsOf(listed);
    hide PodsOf;
    assert KeyOf(v.node, listed[n].pod) in ListedKeys(v.node, PodsOf(listed));
  }

  /**
   No early retry. When a pass is refused for a Pod and a later one asks for it again, at least the
   backoff and the wait that the API suggested lie between them, whatever passes ran in between on
   any node, unless one of those on its node released the Pod.
   */
  lemma NoEarlyRetry(
    w: Shared, visits: seq<Visit>, i: nat, j: nat, n: nat, given: EvictionPolicy, hash: RetryKey -> nat)
    requires InTime(visits) && i < j < |visits|
    requires Works(visits[i], given) && ListsOnce(visits[i].listed.value) && n < |visits[i].listed.value|
    requires var fates := FatesIn(Run(w, visits[..i], given, hash), visits[i], given, hash);
             n < |fates| && fates[n].Refused?
    requires var key := KeyOf(visits[i].node, visits[i].listed.value[n].pod);
             && (forall k | i < k < j :: !Releases(visits[k], given, hash, key))
             && Asks(Run(w, visits[..j], given, hash), visits[j], given, hash, key)
             && ListsOnce(visits[j].listed.value)
    ensures var l := visits[i].listed.value[n];
            && l.answer.Rejected?
            && visits[j].now - visits[i].now >= RetryFloor(given.Normalized(), l.answer.seconds)
  {
    var v, before := visits[i], Run(w, visits[..i], given, hash);
    var s, st, listed := SettingOf(v, given, hash), Opened(before, v, v.listed.value), v.listed.value;
    var key := KeyOf(v.node, listed[n].pod);
    var deadline := v.now + Fates(s, st, listed)[n].delay;
    RefusalSetsDeadline(s, st, listed, n);
    RefusedWithDelay(s, st, listed, n);
    DelayIsBounded(key, given, listed[n].answer.seconds, hash);
    hide Run, Fates, EvictionPolicy.Normalized, Releases, Asks, RetryFloor, BlockedRetryDelay, ListsOnce;
    RunExtends(w, visits, i, given, hash);
    hide Pass;
    AskingDoesNotRelease(Run(w, visits[..j], given, hash), visits[j], given, hash, key);
    if visits[j].now < deadline {
      RunKeepsDeadline(w, visits, i + 1, j, given, hash, key, deadline);
      PassKeepsDeadline(Run(w, visits[..j], given, hash), visits[j], given, hash, key);
      assert false;
    }
  }
}
