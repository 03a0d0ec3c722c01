/** What reconciles and finalizers leave on a node, and for how long it is right. */
module NodeWrites {
  import opened Clock
  import opened Outcomes
  import opened Heartbeats
  import opened Enrollments
  import opened PolicyDecisions
  import opened Protection
  import opened ProtectionLaws
  import opened RequeueLaws
  import opened NodeOwnership
  import opened OwnershipLaws
  import opened DriftHealing
  import opened NodeChanges

  /** The fields of the node are what its protection at t calls for. */
  ghost predicate RightAt(p: TaintPolicy, f: Fields, items: seq<Enrollment>, node: string, t: Time) {
    var r := Protect(p, items, node, t);
    Right(p, f, PolicyAdmitted(p, r, t), r.Taint(), !PolicyAdmitted(p, r, t))
  }

  /** What a reconcile wrote stays right exactly as long as taint and admission stay as they were. */
  lemma ReconciledStaysRightIff(p: TaintPolicy, f: Fields, items: seq<Enrollment>, node: string, now: Time, t: Time)
    requires p.Valid() && ZERO_TIME < now && ZERO_TIME < t && DistinctKeys(items)
    ensures var a, b := Protect(p, items, node, now), Protect(p, items, node, t);
            RightAt(p, Reconciled(p, f, a, now), items, node, t) <==>
            b.Taint() == a.Taint() && PolicyAdmitted(p, b, t) == PolicyAdmitted(p, a, now)
  {
    var a, b := Protect(p, items, node, now), Protect(p, items, node, t);
    DecidedTaintBelongs(p, a, items, node, now);
    DecidedTaintBelongs(p, b, items, node, t);
    var was, admitted := PolicyAdmitted(p, a, now), PolicyAdmitted(p, b, t);
    WriteMakesRight(p, f, was, a.Taint(), !was);
    hide Protect, PolicyAdmitted, Written, Projection, SchedulableValue, DistinctKeys, DesiredBurst, TaintPolicy.Valid, Belongs;
    if was == admitted {
      ListsAgree(a.Taint(), b.Taint(), AsList(DesiredBurst(p, !was)));
    }
  }

  lemma ListsAgree(a: Option<Taint>, b: Option<Taint>, rest: seq<Taint>)
    ensures AsList(a) + rest == AsList(b) + rest <==> a == b
  {
    if AsList(a) + rest == AsList(b) + rest {
      assert |AsList(a)| == |AsList(b)|;
      assert a.Some? ==> (AsList(a) + rest)[0] == a.value && (AsList(b) + rest)[0] == b.value;
    }
  }

  /** So the node is right at every instant before the requeue, without a surprise or an unseen expiry. */
  lemma ReconciledStaysRight(p: TaintPolicy, f: Fields, items: seq<Enrollment>, node: string, now: Time, t: Time)
    requires p.Valid() && ZERO_TIME < now && DistinctKeys(items)
    requires AllParsed(items, node) && Unsurprised(p, items, node, now, t)
    requires var r := Protect(p, items, node, now); now <= t < now + r.requeueAfter && !ExpiresUnseen(p, r, now)
    ensures RightAt(p, Reconciled(p, f, Protect(p, items, node, now), now), items, node, t)
  {
    hide Protect, PolicyAdmitted, Reconciled, RightAt, AllParsed, Unsurprised, DistinctKeys, ExpiresUnseen;
    ProtectionHoldsUntilRequeue(p, items, node, now, t);
    AdmissionHoldsAt(p, items, node, now, t);
    ReconciledStaysRightIff(p, f, items, node, now, t);
  }

  /**
   What a reconcile leaves on any node, in the policy's terms: the taint of its winner and no other under the
   policy's key; the fence under the burst key unless the winner stands down; and the label exactly if it does.
   */
  lemma ReconciledNodeIsMeant(p: TaintPolicy, f: Fields, items: seq<Enrollment>, node: string, now: Time, t: Taint)
    requires p.Valid() && ZERO_TIME < now && DistinctKeys(items)
    ensures var r := Protect(p, items, node, now);
            var after := Reconciled(p, f, r, now);
            var admitted := r.source.Some? && StandsDown(p, r.source.value, now);
            && (t.key == p.key ==>
                  (t in after.taints <==> r.source.Some? && DecidePolicy(p, r.source.value, now).taint == Some(t)))
            && (t.key == p.burstTaintKey != "" ==>
                  (t in after.taints <==> !admitted && t == Taint(p.burstTaintKey, p.failClosedValue, NoSchedule, None)))
            && (if admitted then SCHEDULABLE_LABEL in after.labels && after.labels[SCHEDULABLE_LABEL] == "true"
                else SCHEDULABLE_LABEL !in after.labels)
  {
    var r := Protect(p, items, node, now);
    var admitted := PolicyAdmitted(p, r, now);
    SourceWins(p, items, node, now);
    AdmittedMeansWinnerStandsDown(p, items, node, now);
    DecidedTaintBelongs(p, r, items, node, now);
    WriteOwnsOnlyItsKeys(p, f, admitted, r.Taint(), !admitted);
    WriteLabelsAdmission(p, f, admitted, r.Taint(), !admitted);
    hide Protect, DecidePolicy, PolicyAdmitted, StandsDown, Written, DistinctKeys, Unowned, WinsAt, TaintPolicy.Valid;
  }

  /**
   What a finalizer leaves, from the enrollments that are still live: the taint of their winner, and the fence
   unless there is none or it stands down by what its heartbeat is at the write. Never the label.
   */
  lemma FinalizedNodeIsMeant(
    p: TaintPolicy, f: Fields, items: seq<Enrollment>, node: string, decidedAt: Time, writtenAt: Time, t: Taint)
    requires p.Valid() && ZERO_TIME < decidedAt <= writtenAt && DistinctKeys(items)
    ensures var r := Protect(p, items, node, decidedAt);
            var after := Finalized(p, f, r, writtenAt);
            && (t.key == p.key ==>
                  (t in after.taints <==> r.source.Some? && DecidePolicy(p, r.source.value, decidedAt).taint == Some(t)))
            && (t.key == p.burstTaintKey != "" ==>
                  (t in after.taints <==>
                     && r.source.Some?
                     && !(var e := r.source.value;
                          && p.Freshness(e.heartbeatAt, writtenAt).Fresh? && e.state == Idle && e.activity == IdleActivity
                          && DecidePolicy(p, e, decidedAt).taint.None?)
                     && t == Taint(p.burstTaintKey, p.failClosedValue, NoSchedule, None)))
            && SCHEDULABLE_LABEL !in after.labels
  {
    var r := Protect(p, items, node, decidedAt);
    SourceWins(p, items, node, decidedAt);
    DecidedTaintBelongs(p, r, items, node, decidedAt);
    var fenced := r.source.Some? && !PolicyAdmitted(p, r, writtenAt);
    WriteOwnsOnlyItsKeys(p, f, false, r.Taint(), fenced);
    WriteLabelsAdmission(p, f, false, r.Taint(), fenced);
    hide Protect, DecidePolicy, Written, DistinctKeys, Unowned, WinsAt, HeartbeatFreshness;
  }
}
