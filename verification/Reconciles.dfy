/** One reconcile of a live enrollment from end to end: protect the node, then evict, then sleep. */
module Reconciles {
  import opened Clock
  import opened Outcomes
  import opened Names
  import opened EvictionPolicies
  import opened EvictionBudgets
  import opened Heartbeats
  import opened Enrollments
  import opened Protection
  import opened ProtectionLaws
  import opened RequeueLaws
  import opened NodeOwnership
  import opened EvictionMatrix
  import opened Pods
  import opened PodGate
  import opened EvictionRetries
  import opened EvictionPasses
  import opened PassLaws

  /** What a reconcile works with. It reads its clock to decide, and again to evict. */
  datatype Round = Round(
    items: seq<Enrollment>,
    enrollment: Enrollment,
    node: NodeName,
    decideAt: Time,
    evictAt: Time,
    storage: Storage,
    hasEvictor: bool,
    listed: Option<seq<Listed>>)
  {
    function Decided(p: TaintPolicy): NodeProtection {
      Protect(p, items, node.text, decideAt)
    }

    /** The eviction pass on a node that carries the taints just written. */
    function EvictionVisit(p: TaintPolicy, written: Fields): Visit {
      Visit(node, EvictionClass(p, enrollment, written.taints, Decided(p).Taint(), evictAt),
            evictAt, storage, hasEvictor, listed)
    }
  }

  /** The sooner of looking at the protection and looking at the evictions again. */
  function Sooner(requeue: Duration, evictions: Duration): Duration {
    if evictions > 0 && (requeue <= 0 || evictions < requeue) then evictions else requeue
  }

  /** The eviction part: with more than one live enrollment it is suppressed. */
  function Evictions(
    p: TaintPolicy, given: EvictionPolicy, r: Round, written: Fields, w: Shared, hash: RetryKey -> nat): PassResult {
    if r.Decided(p).count != 1 then PassResult(w, Some(NO_SUMMARY.(outcome := if IsOff(given) then Disabled else Inactive)))
    else Pass(w, r.EvictionVisit(p, written), given, hash)
  }

  method Reconcile(
    p: TaintPolicy, given: EvictionPolicy, r: Round, hash: RetryKey -> nat,
    node: Node, retries: EvictionRetries, budgets: EvictionBudgets)
    returns (requeue: Option<Duration>)
    requires budgets.Valid() && retries !in budgets.Repr() && node !in budgets.Repr()
    modifies node, retries, budgets.Repr()
    ensures budgets.Valid() && fresh(budgets.Repr() - old(budgets.Repr()))
    ensures node.Value() == Reconciled(p, old(node.Value()), r.Decided(p), r.decideAt)
    ensures var done := Evictions(p, given, r, node.Value(), Shared(old(retries.deadlines), old(budgets.Value())), hash);
            && Shared(retries.deadlines, budgets.Value()) == done.shared
            && requeue == (if done.summary.None? then None
                           else Some(Sooner(r.Decided(p).requeueAfter, done.summary.value.requeueAfter)))
  {
    hide Protect, Reconciled, EvictionClass, Pass, IsOff, EvictionBudgets.Valid;
    var protection := ProtectionForNode(p, r.items, r.node.text, r.decideAt);
    var changed := ReconcileNode(p, node, protection, r.decideAt);
    var summary: Option<Summary> := Some(NO_SUMMARY.(outcome := if IsOff(given) then Disabled else Inactive));
    if protection.count == 1 {
      var v := r.EvictionVisit(p, node.Value());
      summary := ReconcileEvictions(given, p, r.enrollment, node.taints, protection.Taint(), v, hash, retries, budgets);
    }
    if summary.None? {
      return None;
    }
    requeue := Some(Sooner(protection.requeueAfter, summary.value.requeueAfter));
  }

  /** A request is only sent for a considered, identified Pod that passes every gate, with evictions enabled. */
  lemma {:induction false} AskedPodsPassGates(s: Setting, st: PassState, listed: seq<Listed>, n: nat)
    requires n < |listed| && n < |Fates(s, st, listed)| && Fates(s, st, listed)[n].Asked()
    ensures var pod := listed[n].pod;
            && s.Considers(pod) && !s.OnlyAudits() && pod.uid != "" && pod.resourceVersion != ""
            && Gate(pod, s.storage, s.policy, pod.AllowsLossy()).None?
    decreases |listed|
  {
    hide Take, Gate, BlockedRetryDelay, Setting.Considers, Setting.OnlyAudits, Applied;
    if n > 0 {
      AskedPodsPassGates(s, Applied(s, st, listed[0]), listed[1..], n - 1);
    } else {
      HeldSpendsNothing(s, st.deadlines, listed[0].pod);
    }
  }

  /**
   The safety of eviction, end to end. Whatever the node, the other enrollments, the budgets and
   the deadlines were, an eviction request means: evictions are enabled and not audited; the Pod
   is identified, opted in, movable, and its volumes portable; the node carries the protection just decided
   and is not admitted; and a Pod that is not marked lossy is asked for only without an emptyDir, a selector
   or a required affinity, and if the node's one live enrollment reports a fresh active game.
   */
  lemma RequestsAreAuthorized(
    p: TaintPolicy, given: EvictionPolicy, r: Round, f: Fields, w: Shared, hash: RetryKey -> nat, n: nat)
    requires p.Valid() && ZERO_TIME < r.decideAt <= r.evictAt && DistinctKeys(r.items)
    requires r.enrollment in r.items && Live(r.enrollment, r.node.text) && r.Decided(p).count == 1
    requires var v := r.EvictionVisit(p, Reconciled(p, f, r.Decided(p), r.decideAt));
             Works(v, given) && n < |r.listed.value| && n < |FatesIn(w, v, given, hash)| && FatesIn(w, v, given, hash)[n].Asked()
    ensures var pod, after, e := r.listed.value[n].pod, Reconciled(p, f, r.Decided(p), r.decideAt), r.enrollment;
            && given.enabled && !given.audit && r.hasEvictor
            && pod.nodeName == r.node.text && pod.uid != "" && pod.resourceVersion != ""
            && Movable(pod, given.Normalized(), MarkedLossy(pod))
            && (forall v | v in pod.volumes :: Portable(v, pod.namespace, r.storage, MarkedLossy(pod)))
            && (!MarkedLossy(pod) ==>
                  pod.nodeSelector == map[] && !pod.requiredNodeAffinity && forall v | v in pod.volumes :: !v.emptyDir)
            && r.Decided(p).Taint().Some? && r.Decided(p).Taint().value in after.taints
            && SCHEDULABLE_LABEL !in after.labels
            && (!MarkedLossy(pod) ==>
                  && e.state == Active && e.activity == GameActivity && p.Freshness(e.heartbeatAt, r.evictAt).Fresh?
                  && forall x | x in r.items && Live(x, r.node.text) :: x == e)
  {
    var v := r.EvictionVisit(p, Reconciled(p, f, r.Decided(p), r.decideAt));
    var pod := r.listed.value[n].pod;
    AskedPodsPassGates(SettingOf(v, given, hash), Opened(w, v, v.listed.value), v.listed.value, n);
    DecisionIsMeant(pod, r.storage, given.Normalized());
    LossyIsMarked(pod);
    EvictionIsFenced(p, f, r.items, r.enrollment, r.node.text, r.decideAt, r.evictAt);
    assert given.Normalized().enabled == given.enabled && given.Normalized().audit == given.audit;
    hide Protect, Reconciled, EvictionClass, EvictionPolicy.Normalized, Movable, Portable, Gate, Pod.AllowsLossy, MarkedLossy;
    hide Fates, Pruned, DistinctKeys, HeartbeatFreshness, Live;
  }

  /**
   With more than one live enrollment, or none, a reconcile touches no deadline and no budget, asks for
   nothing, and looks again when the protection says.
   */
  lemma DuplicatesSuppressEvictions(
    p: TaintPolicy, given: EvictionPolicy, r: Round, written: Fields, w: Shared, hash: RetryKey -> nat)
    requires p.Valid() && ZERO_TIME < r.decideAt && DistinctKeys(r.items)
    requires LiveCount(r.items, r.node.text) != 1
    ensures var done := Evictions(p, given, r, written, w, hash);
            && done.shared == w
            && done.summary == Some(Summary(0, 0, 0, 0, 0, 0,
                 if given.enabled || given.audit then Inactive else Disabled, NoBlocker, 0))
            && Sooner(r.Decided(p).requeueAfter, done.summary.value.requeueAfter) == r.Decided(p).requeueAfter
  {
    CountIsLive(p, r.items, r.node.text, r.decideAt);
    hide Protect, DistinctKeys, LiveCount;
  }

  /**
   A reconcile of a live enrollment always comes back, no later than the protection asks for,
   and no later than any Pod that it blocked or deferred.
   */
  lemma ReconcileComesBackInTime(
    p: TaintPolicy, given: EvictionPolicy, r: Round, f: Fields, w: Shared, hash: RetryKey -> nat)
    requires p.Valid() && ZERO_TIME < r.decideAt && DistinctKeys(r.items)
    requires r.enrollment in r.items && Live(r.enrollment, r.node.text)
    requires Evictions(p, given, r, Reconciled(p, f, r.Decided(p), r.decideAt), w, hash).summary.Some?
    ensures var v := r.EvictionVisit(p, Reconciled(p, f, r.Decided(p), r.decideAt));
            var done := Evictions(p, given, r, Reconciled(p, f, r.Decided(p), r.decideAt), w, hash);
            var requeue := Sooner(r.Decided(p).requeueAfter, done.summary.value.requeueAfter);
            && 0 < requeue <= r.Decided(p).requeueAfter
            && (r.Decided(p).count == 1 && Works(v, given) ==>
                  forall wait | wait in Waits(FatesIn(w, v, given, hash)) :: requeue <= wait)
  {
    var v := r.EvictionVisit(p, Reconciled(p, f, r.Decided(p), r.decideAt));
    LiveEnrollmentRequeues(p, r.items, r.node.text, r.decideAt, r.enrollment);
    if Works(v, given) {
      PassRequeuesForEveryWait(w, v, given, hash);
    }
    hide Protect, Reconciled, EvictionClass, Processed, Fates, Waits, DistinctKeys, Live, SettingOf, Opened;
    hide EvictionPolicy.Normalized;
  }
}
