/** The books of a pass: every Pod is counted once, every token spent is a request, every wait is kept. */
module PassLaws {
  import opened Clock
  import opened Outcomes
  import opened Names
  import opened EvictionPolicies
  import opened TokenBuckets
  import opened EvictionBudgets
  import opened BudgetRuns
  import opened EvictionMatrix
  import opened Pods
  import opened PodGate
  import opened EvictionRetries
  import opened EvictionPasses

  /** What becomes of each listed Pod. */
  function Fates(s: Setting, st: PassState, listed: seq<Listed>): seq<Fate>
    decreases |listed|
  {
    if listed == [] then []
    else [FateOf(s, st.deadlines, st.budgets, listed[0])] + Fates(s, Applied(s, st, listed[0]), listed[1..])
  }

  function CountOf(kind: Fate -> bool, fates: seq<Fate>): nat {
    if fates == [] then 0 else (if kind(fates[0]) then 1 else 0) + CountOf(kind, fates[1..])
  }

  predicate IsSkip(f: Fate) { f.Skipped? || f.NoIdentity? || f.RateLimited? }
  predicate IsAudit(f: Fate) { f.Audited? }
  predicate IsEviction(f: Fate) { f.Evicted? }
  predicate IsBlock(f: Fate) { f.BackingOff? || f.Refused? }
  predicate IsDeferral(f: Fate) { f.RateLimited? }
  predicate IsRefusal(f: Fate) { f.Refused? }
  predicate IsAsked(f: Fate) { f.Asked() }
  predicate IsConsidered(f: Fate) { !f.NotConsidered? }

  // --- Counters ----------------------------------------------------------------------

  /** A Pod of the node, of a kind that the class evicts. */
  predicate Reached(s: Setting, pod: Pod) {
    pod.nodeName == s.node.text && (s.evicts == GameEviction || (s.evicts == LossyOnly && MarkedLossy(pod)))
  }

  function ConsideredCount(s: Setting, listed: seq<Listed>): nat {
    if listed == [] then 0 else (if Reached(s, listed[0].pod) then 1 else 0) + ConsideredCount(s, listed[1..])
  }

  lemma FateConsiders(s: Setting, deadlines: Deadlines, budgets: Budgets, l: Listed)
    ensures FateOf(s, deadlines, budgets, l).NotConsidered? <==> !Reached(s, l.pod)
  {
    LossyIsMarked(l.pod);
    hide Take, Gate, Remaining, Pod.AllowsLossy, MarkedLossy;
  }

  /** No gate keeps the Pod in place, judged as it is marked. */
  predicate Passing(s: Setting, pod: Pod) {
    && Movable(pod, s.policy, MarkedLossy(pod))
    && forall v | v in pod.volumes :: Portable(v, pod.namespace, s.storage, MarkedLossy(pod))
  }

  /** The pass does send requests. */
  predicate Sends(s: Setting) {
    s.policy.enabled && !s.policy.audit && s.hasEvictor
  }

  /** The deadline of this very Pod lies ahead. */
  predicate Held(s: Setting, deadlines: Deadlines, pod: Pod) {
    var key := RetryKey(s.node, pod.namespace, pod.name, pod.uid);
    key in deadlines && s.now < deadlines[key]
  }

  lemma HeldIsRemaining(s: Setting, deadlines: Deadlines, pod: Pod)
    requires ZERO_TIME < s.now
    ensures var remaining := Remaining(deadlines, KeyOf(s.node, pod), s.now);
            && (remaining > 0 <==> Held(s, deadlines, pod))
            && (remaining > 0 ==> remaining == deadlines[RetryKey(s.node, pod.namespace, pod.name, pod.uid)] - s.now)
  {
  }

  /** Which fate a Pod meets, by what holds of it: each is exactly one situation. */
  lemma FateIsMeant(s: Setting, deadlines: Deadlines, budgets: Budgets, l: Listed)
    requires ZERO_TIME < s.now
    ensures var f, pod := FateOf(s, deadlines, budgets, l), l.pod;
            var asks := Reached(s, pod) && Passing(s, pod) && Sends(s) && !Held(s, deadlines, pod);
            && (f.NotConsidered? <==> !Reached(s, pod))
            && (f.Skipped? <==> Reached(s, pod) && !Passing(s, pod))
            && (f.Audited? <==> Reached(s, pod) && Passing(s, pod) && !Sends(s))
            && (f.BackingOff? <==> Reached(s, pod) && Passing(s, pod) && Sends(s) && Held(s, deadlines, pod))
            && (f.BackingOff? ==> f.remaining == deadlines[RetryKey(s.node, pod.namespace, pod.name, pod.uid)] - s.now)
            && (f.NoIdentity? <==> asks && (pod.uid == "" || pod.resourceVersion == ""))
            && (f.Spends() <==> asks && pod.uid != "" && pod.resourceVersion != "")
            && (f.Spends() ==> (f.Asked() <==> Take(budgets, MarkedLossy(pod), s.node, s.now, s.policy).granted))
            && (f.Asked() ==> (f.Evicted? <==> l.answer.Accepted?))
  {
    DecisionIsMeant(l.pod, s.storage, s.policy);
    LossyIsMarked(l.pod);
    HeldIsRemaining(s, deadlines, l.pod);
    hide Take, Gate, Remaining, KeyOf, Pod.AllowsLossy, MarkedLossy, Movable, Portable, Held, BlockedRetryDelay, BlockerOf;
  }

  /** A summary counts every fate under its name. */
  ghost predicate Counts(m: Summary, before: Summary, fates: seq<Fate>) {
    && m.skipped == before.skipped + CountOf(IsSkip, fates)
    && m.audited == before.audited + CountOf(IsAudit, fates)
    && m.evicted == before.evicted + CountOf(IsEviction, fates)
    && m.blocked == before.blocked + CountOf(IsBlock, fates)
    && m.deferred == before.deferred + CountOf(IsDeferral, fates)
    && m.attempted == before.attempted + CountOf(IsAsked, fates)
  }

  lemma FirstCounts(m: Summary, before: Summary, f: Fate, rest: seq<Fate>)
    requires Counts(m, Counted(before, f), rest)
    ensures Counts(m, before, [f] + rest)
  {
    assert ([f] + rest)[1..] == rest;
  }

  lemma {:induction false} SummaryCounts(s: Setting, st: PassState, listed: seq<Listed>)
    ensures Counts(Processed(s, st, listed).summary, st.summary, Fates(s, st, listed))
    decreases |listed|
  {
    hide FateOf;
    if listed != [] {
      var next := Applied(s, st, listed[0]);
      SummaryCounts(s, next, listed[1..]);
      FirstCounts(Processed(s, st, listed).summary, st.summary, FateOf(s, st.deadlines, st.budgets, listed[0]),
                  Fates(s, next, listed[1..]));
      hide Counts, Counted;
    }
  }

  /** Every fate but not being considered is of exactly one kind. */
  lemma {:induction false} KindsAddUp(fates: seq<Fate>)
    ensures CountOf(IsConsidered, fates) == CountOf(IsSkip, fates) + CountOf(IsAudit, fates) + CountOf(IsEviction, fates) + CountOf(IsBlock, fates)
    ensures CountOf(IsAsked, fates) == CountOf(IsEviction, fates) + CountOf(IsRefusal, fates)
    ensures CountOf(IsRefusal, fates) <= CountOf(IsBlock, fates)
    ensures CountOf(IsDeferral, fates) <= CountOf(IsSkip, fates)
  {
    if fates != [] {
      KindsAddUp(fates[1..]);
    }
  }

  lemma {:induction false} ConsideredAreCounted(s: Setting, st: PassState, listed: seq<Listed>)
    ensures CountOf(IsConsidered, Fates(s, st, listed)) == ConsideredCount(s, listed)
    decreases |listed|
  {
    hide FateOf, Reached;
    if listed != [] {
      FateConsiders(s, st.deadlines, st.budgets, listed[0]);
      ConsideredAreCounted(s, Applied(s, st, listed[0]), listed[1..]);
      var rest := Fates(s, Applied(s, st, listed[0]), listed[1..]);
      assert Fates(s, st, listed)[1..] == rest;
      hide Applied;
    }
  }

  // --- Waits -------------------------------------------------------------------------

  /** The waits that a pass meets. */
  function Waits(fates: seq<Fate>): seq<Duration> {
    if fates == [] then []
    else
      (match fates[0]
       case BackingOff(remaining) => [remaining]
       case RateLimited(wait) => [wait]
       case Refused(_, delay) => [delay]
       case _ => []) + Waits(fates[1..])
  }

  lemma RateWaitIsPositive(b: Budgets, lossy: bool, node: NodeName, now: Time, p: EvictionPolicy)
    ensures !Take(b, lossy, node, now, p).granted ==> Take(b, lossy, node, now, p).wait > 0
  {
    hide NodeBucketAt, GlobalBucketAt, WaitForOne;
  }

  lemma WaitIsPositive(s: Setting, deadlines: Deadlines, budgets: Budgets, l: Listed)
    requires s.policy == s.policy.Normalized()
    ensures forall w | w in Waits([FateOf(s, deadlines, budgets, l)]) :: w > 0
  {
    RateWaitIsPositive(budgets, l.pod.AllowsLossy(), s.node, s.now, s.policy);
    if l.answer.Rejected? {
      DelayIsBounded(KeyOf(s.node, l.pod), s.policy, l.answer.seconds, s.hash);
    }
    hide Take, Gate, BlockedRetryDelay, EvictionPolicy.Normalized, Pod.AllowsLossy, Setting.Considers, Setting.OnlyAudits;
  }

  /** The requeue after some waits: the least of them and of what there was. */
  ghost predicate Least(after: Duration, before: Duration, waits: seq<Duration>) {
    && (after == 0 <==> before == 0 && waits == [])
    && after >= 0
    && (after > 0 ==> after == before || after in waits)
    && (before > 0 ==> after <= before)
    && (forall w | w in waits :: after <= w)
  }

  lemma LeastAfterFirst(after: Duration, before: Duration, m: Summary, f: Fate, rest: seq<Fate>)
    requires before == m.requeueAfter >= 0
    requires forall w | w in Waits([f]) :: w > 0
    requires Least(after, Counted(m, f).requeueAfter, Waits(rest))
    ensures Least(after, before, Waits([f] + rest))
    ensures Counted(m, f).requeueAfter >= 0
  {
    assert ([f] + rest)[1..] == rest;
    assert Waits([]) == [];
    assert [f][1..] == [];
    assert Waits([f] + rest) == Waits([f]) + Waits(rest);
    assert |Waits([f])| == (if f.BackingOff? || f.RateLimited? || f.Refused? then 1 else 0);
    assert Waits([f]) != [] ==> Waits([f])[0] in Waits([f]);
    hide Waits;
  }

  lemma CountedKeepsRequeue(m: Summary, f: Fate)
    requires m.requeueAfter >= 0
    ensures Counted(m, f).requeueAfter >= 0
  {
  }

  lemma {:induction false} RequeueIsLeastWait(s: Setting, st: PassState, listed: seq<Listed>)
    requires s.policy == s.policy.Normalized() && st.summary.requeueAfter >= 0
    ensures Least(Processed(s, st, listed).summary.requeueAfter, st.summary.requeueAfter, Waits(Fates(s, st, listed)))
    decreases |listed|
  {
    hide FateOf, EvictionPolicy.Normalized;
    if listed != [] {
      var next := Applied(s, st, listed[0]);
      var f := FateOf(s, st.deadlines, st.budgets, listed[0]);
      CountedKeepsRequeue(st.summary, f);
      RequeueIsLeastWait(s, next, listed[1..]);
      WaitIsPositive(s, st.deadlines, st.budgets, listed[0]);
      LeastAfterFirst(Processed(s, st, listed).summary.requeueAfter, st.summary.requeueAfter, st.summary, f,
                      Fates(s, next, listed[1..]));
      hide Least, Counted, Waits;
    } else {
      assert Waits([]) == [];
    }
  }

  lemma {:induction false} WaitsAreCounted(fates: seq<Fate>)
    ensures |Waits(fates)| == CountOf(IsBlock, fates) + CountOf(IsDeferral, fates)
  {
    if fates != [] {
      WaitsAreCounted(fates[1..]);
    }
  }

  // --- The blocker -------------------------------------------------------------------------

  function BlockerIn(f: Fate): Blocker {
    match f
    case BackingOff(_) => RetryBackoff
    case Refused(b, _) => b
    case _ => NoBlocker
  }

  /** The strongest of some blockers and of what there was. */
  ghost predicate Strongest(after: Blocker, before: Blocker, fates: seq<Fate>) {
    && (after == before || exists f | f in fates :: after == BlockerIn(f))
    && BlockerRank(before) <= BlockerRank(after)
    && (forall f | f in fates :: BlockerRank(BlockerIn(f)) <= BlockerRank(after))
  }

  lemma StrongestAfterFirst(after: Blocker, m: Summary, f: Fate, rest: seq<Fate>)
    requires Strongest(after, Counted(m, f).blocker, rest)
    ensures Strongest(after, m.blocker, [f] + rest)
  {
    assert f in [f] + rest;
    assert forall x :: x in [f] + rest <==> x == f || x in rest;
    assert Counted(m, f).blocker in {m.blocker, BlockerIn(f)};
    assert BlockerRank(Counted(m, f).blocker) >= BlockerRank(m.blocker);
    assert BlockerRank(Counted(m, f).blocker) >= BlockerRank(BlockerIn(f));
    hide BlockerRank, Counted, BlockerIn;
  }

  lemma {:induction false} BlockerIsStrongest(s: Setting, st: PassState, listed: seq<Listed>)
    ensures Strongest(Processed(s, st, listed).summary.blocker, st.summary.blocker, Fates(s, st, listed))
    decreases |listed|
  {
    hide FateOf;
    if listed != [] {
      var next := Applied(s, st, listed[0]);
      BlockerIsStrongest(s, next, listed[1..]);
      StrongestAfterFirst(Processed(s, st, listed).summary.blocker, st.summary, FateOf(s, st.deadlines, st.budgets, listed[0]),
                          Fates(s, next, listed[1..]));
      hide Strongest, Counted;
    }
  }

  lemma {:induction false} BlockersAreNamed(s: Setting, st: PassState, listed: seq<Listed>)
    ensures forall f | f in Fates(s, st, listed) :: IsBlock(f) <==> BlockerIn(f) != NoBlocker
    decreases |listed|
  {
    hide Take, Gate, BlockedRetryDelay;
    if listed != [] {
      BlockersAreNamed(s, Applied(s, st, listed[0]), listed[1..]);
      hide Applied;
    }
  }

  lemma {:induction false} CountIsPositiveIff(kind: Fate -> bool, fates: seq<Fate>)
    ensures CountOf(kind, fates) > 0 <==> exists f | f in fates :: kind(f)
  {
    if fates != [] {
      CountIsPositiveIff(kind, fates[1..]);
      assert fates == [fates[0]] + fates[1..];
    }
  }

  // --- Tokens ---------------------------------------------------------------------------

  function CallFor(s: Setting, pod: Pod): Call {
    Call(pod.AllowsLossy(), s.node, s.now)
  }

  /** The budget calls of a pass, in order. */
  function Calls(s: Setting, st: PassState, listed: seq<Listed>): seq<Call>
    decreases |listed|
  {
    if listed == [] then []
    else
      (if FateOf(s, st.deadlines, st.budgets, listed[0]).Spends() then [CallFor(s, listed[0].pod)] else [])
      + Calls(s, Applied(s, st, listed[0]), listed[1..])
  }

  /** How many requests of a pass belong to a scope. */
  function AskedIn(s: Setting, st: PassState, listed: seq<Listed>, scope: Scope): nat
    decreases |listed|
  {
    if listed == [] then 0
    else
      (if FateOf(s, st.deadlines, st.budgets, listed[0]).Asked() && scope.Covers(CallFor(s, listed[0].pod)) then 1 else 0)
      + AskedIn(s, Applied(s, st, listed[0]), listed[1..], scope)
  }

  lemma AskedIsGranted(s: Setting, deadlines: Deadlines, budgets: Budgets, l: Listed)
    ensures var f := FateOf(s, deadlines, budgets, l);
            f.Spends() ==> (f.Asked() <==> Step(budgets, CallFor(s, l.pod), s.policy).granted)
  {
    HeldSpendsNothing(s, deadlines, l.pod);
    hide Take, HeldFate, Setting.Considers, BlockedRetryDelay;
  }

  /** The budgets see exactly the calls of the pass, and grant exactly its requests, in every scope. */
  lemma {:induction false} TokensAreRequests(s: Setting, st: PassState, listed: seq<Listed>, scope: Scope)
    ensures Processed(s, st, listed).budgets == After(st.budgets, Calls(s, st, listed), s.policy)
    ensures AskedIn(s, st, listed, scope) == Granted(st.budgets, Calls(s, st, listed), s.policy, scope)
    decreases |listed|
  {
    if listed != [] {
      var next := Applied(s, st, listed[0]);
      AskedIsGranted(s, st.deadlines, st.budgets, listed[0]);
      hide FateOf, Deadlined, Counted;
      assert next.budgets == if FateOf(s, st.deadlines, st.budgets, listed[0]).Spends()
                             then Step(st.budgets, CallFor(s, listed[0].pod), s.policy).budgets else st.budgets;
      hide Step, CallFor, Scope.Covers, Applied;
      TokensAreRequests(s, next, listed[1..], scope);
      var rest := Calls(s, next, listed[1..]);
      if FateOf(s, st.deadlines, st.budgets, listed[0]).Spends() {
        assert Calls(s, st, listed)[1..] == rest;
      } else {
        assert Calls(s, st, listed) == rest;
      }
    }
  }

  /** Each class's requests add up to all of them. */
  lemma {:induction false} RequestsByClass(s: Setting, st: PassState, listed: seq<Listed>)
    ensures AskedIn(s, st, listed, GlobalScope(true)) + AskedIn(s, st, listed, GlobalScope(false))
         == CountOf(IsAsked, Fates(s, st, listed))
    decreases |listed|
  {
    hide FateOf, Pod.AllowsLossy;
    if listed != [] {
      var next := Applied(s, st, listed[0]);
      RequestsByClass(s, next, listed[1..]);
      assert Fates(s, st, listed)[1..] == Fates(s, next, listed[1..]);
      hide Applied;
    }
  }

  /** A pass that only audits asks nothing, spends nothing, and sets no deadline. */
  lemma {:induction false} AuditSpendsNothing(s: Setting, st: PassState, listed: seq<Listed>)
    requires s.OnlyAudits()
    ensures Calls(s, st, listed) == [] && Processed(s, st, listed).budgets == st.budgets
    ensures Processed(s, st, listed).deadlines.Items <= st.deadlines.Items
    ensures forall f | f in Fates(s, st, listed) :: f.NotConsidered? || f.Skipped? || f.Audited?
    decreases |listed|
  {
    hide Take, Gate, Setting.OnlyAudits;
    if listed != [] {
      AuditSpendsNothing(s, Applied(s, st, listed[0]), listed[1..]);
      hide Processed;
    }
  }

  // --- A whole pass ----------------------------------------------------------------------

  /** A pass that gets as far as its Pods. */
  predicate Works(v: Visit, given: EvictionPolicy) {
    !IsOff(given) && v.evicts != NoEviction && v.listed.Some?
  }

  function FatesIn(w: Shared, v: Visit, given: EvictionPolicy, hash: RetryKey -> nat): seq<Fate>
    requires Works(v, given)
  {
    Fates(SettingOf(v, given, hash), Opened(w, v, v.listed.value), v.listed.value)
  }

  /** The books of a pass. */
  ghost predicate Balanced(m: Summary, fates: seq<Fate>, considered: nat) {
    && considered == m.skipped + m.audited + m.evicted + m.blocked
    && m.attempted == m.evicted + CountOf(IsRefusal, fates)
    && CountOf(IsRefusal, fates) <= m.blocked
    && m.deferred <= m.skipped
    && m.blocked == CountOf(IsBlock, fates)
    && m.deferred == CountOf(IsDeferral, fates)
    && m.evicted == CountOf(IsEviction, fates)
  }

  /** Every considered Pod lands in one counter, and attempts are evictions or refusals. */
  lemma PassIsBalanced(w: Shared, v: Visit, given: EvictionPolicy, hash: RetryKey -> nat)
    requires Works(v, given)
    ensures Balanced(Pass(w, v, given, hash).summary.value, FatesIn(w, v, given, hash),
                     ConsideredCount(SettingOf(v, given, hash), v.listed.value))
  {
    var s, st, listed := SettingOf(v, given, hash), Opened(w, v, v.listed.value), v.listed.value;
    SummaryCounts(s, st, listed);
    KindsAddUp(Fates(s, st, listed));
    ConsideredAreCounted(s, st, listed);
    hide Processed, Fates, ConsideredCount, CountOf, SettingOf, Pruned, EvictionPolicy.Normalized;
  }

  /** The pass is looked at again exactly when a Pod is blocked or deferred, and no later than any wait. */
  lemma PassRequeuesForEveryWait(w: Shared, v: Visit, given: EvictionPolicy, hash: RetryKey -> nat)
    requires Works(v, given)
    ensures var m, waits := Pass(w, v, given, hash).summary.value, Waits(FatesIn(w, v, given, hash));
            && m.requeueAfter >= 0
            && (m.requeueAfter > 0 <==> m.blocked + m.deferred > 0)
            && |waits| == m.blocked + m.deferred
            && (forall wait | wait in waits :: 0 < m.requeueAfter <= wait)
            && (m.requeueAfter > 0 ==> m.requeueAfter in waits)
  {
    var s, st, listed := SettingOf(v, given, hash), Opened(w, v, v.listed.value), v.listed.value;
    NormalizedIsUsable(given, true);
    assert s.policy == s.policy.Normalized();
    hide Processed, Fates, CountOf, SettingOf, Pruned, EvictionPolicy.Normalized, Waits;
    RequeueIsLeastWait(s, st, listed);
    PassIsBalanced(w, v, given, hash);
    WaitsAreCounted(Fates(s, st, listed));
  }

  /** Why a pass does not get as far as its Pods, and what it does then: only the own node's and the expired deadlines go. */
  lemma IdlePassIsMeant(w: Shared, v: Visit, given: EvictionPolicy, hash: RetryKey -> nat, key: RetryKey)
    ensures var r, off := Pass(w, v, given, hash), !given.enabled && !given.audit;
            && (Works(v, given) <==> !off && v.evicts != NoEviction && v.listed.Some?)
            && (off || v.evicts == NoEviction ==>
                  && r.summary == Some(Summary(0, 0, 0, 0, 0, 0, if off then Disabled else Inactive, NoBlocker, 0))
                  && r.shared.budgets == w.budgets
                  && (key in r.shared.deadlines <==> key in w.deadlines && v.now < w.deadlines[key] && key.node != v.node)
                  && (key in r.shared.deadlines ==> r.shared.deadlines[key] == w.deadlines[key]))
            && (!off && v.evicts != NoEviction && v.listed.None? ==> r == PassResult(w, None))
  {
    PrunedIsExact(w.deadlines, v.now, v.node, [], key);
    hide Pruned, ListedKeys, Processed;
  }

  /** The outcome names what is left to do, and the blocker the strongest reason for it. */
  lemma PassOutcomeIsMeant(w: Shared, v: Visit, given: EvictionPolicy, hash: RetryKey -> nat)
    requires Works(v, given)
    ensures var m, fates := Pass(w, v, given, hash).summary.value, FatesIn(w, v, given, hash);
            && (m.outcome == BlockedOutcome <==> exists f | f in fates :: IsBlock(f))
            && (m.outcome == BudgetWaiting <==> m.blocked == 0 && m.requeueAfter > 0)
            && (m.outcome == Completed <==> m.requeueAfter == 0 && m.evicted > 0)
            && (m.outcome == Completed ==> m.evicted == m.attempted && m.deferred == 0)
            && (m.outcome == AuditOnly <==> m.requeueAfter == 0 && m.attempted == 0 && m.audited > 0)
            && (m.outcome == NoEligible <==> m.requeueAfter == 0 && m.attempted == 0 && m.audited == 0)
            && (m.blocker == NoBlocker <==> m.outcome != BlockedOutcome)
            && Strongest(m.blocker, NoBlocker, fates)
  {
    var s, st, listed := SettingOf(v, given, hash), Opened(w, v, v.listed.value), v.listed.value;
    var fates := FatesIn(w, v, given, hash);
    hide Processed, Fates, CountOf, SettingOf, Pruned, EvictionPolicy.Normalized, Waits;
    PassIsBalanced(w, v, given, hash);
    PassRequeuesForEveryWait(w, v, given, hash);
    BlockerIsStrongest(s, st, listed);
    BlockersAreNamed(s, st, listed);
    CountIsPositiveIff(IsBlock, fates);
    hide IsBlock, BlockerIn;
    assert forall b :: BlockerRank(b) == 0 <==> b == NoBlocker;
    hide BlockerRank;
  }

  /** Every token a pass spends is a request it counts, of either class, and an audit spends none. */
  lemma PassSpendsPerRequest(w: Shared, v: Visit, given: EvictionPolicy, hash: RetryKey -> nat)
    requires Works(v, given)
    ensures var s, st, p := SettingOf(v, given, hash), Opened(w, v, v.listed.value), given.Normalized();
            var calls := Calls(s, st, v.listed.value);
            && Pass(w, v, given, hash).shared.budgets == After(w.budgets, calls, p)
            && Pass(w, v, given, hash).summary.value.attempted
               == Granted(w.budgets, calls, p, GlobalScope(true)) + Granted(w.budgets, calls, p, GlobalScope(false))
            && (!given.enabled || given.audit || !v.hasEvictor ==> calls == [] && Pass(w, v, given, hash).shared.budgets == w.budgets)
  {
    var s, st, listed := SettingOf(v, given, hash), Opened(w, v, v.listed.value), v.listed.value;
    TokensAreRequests(s, st, listed, GlobalScope(true));
    TokensAreRequests(s, st, listed, GlobalScope(false));
    RequestsByClass(s, st, listed);
    SummaryCounts(s, st, listed);
    if s.OnlyAudits() {
      AuditSpendsNothing(s, st, listed);
    }
    hide Processed, Fates, CountOf, Pruned, EvictionPolicy.Normalized, Calls, AskedIn, Granted, After, Setting.OnlyAudits;
  }
}
