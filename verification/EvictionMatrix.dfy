/** Which Pods a node's state may evict at all. */
module EvictionMatrix {
  import opened Clock
  import opened Outcomes
  import opened Heartbeats
  import opened Enrollments
  import opened PolicyDecisions
  import opened DecisionLaws
  import opened Protection
  import opened ProtectionLaws
  import opened RequeueLaws
  import opened NodeOwnership
  import opened OwnershipLaws

  /** Nothing, standard and lossy Pods, or lossy Pods only. */
  datatype Class = NoEviction | GameEviction | LossyOnly

  predicate HasTaint(taints: seq<Taint>, key: string, value: string, effect: Effect) {
    exists t | t in taints :: t.key == key && t.value == value && t.effect == effect
  }

  function EvictionClass(p: TaintPolicy, e: Enrollment, taints: seq<Taint>, desired: Option<Taint>, now: Time): Class {
    var verdict := p.Freshness(e.heartbeatAt, now);
    var staleHeartbeat := verdict.Missing? || verdict.Expired?;
    if verdict.Future? then NoEviction
    else if verdict.Fresh? && e.state == Unknown then NoEviction
    else if verdict.Fresh? && desired.None? && e.state == Idle && e.activity == IdleActivity then NoEviction
    else if verdict.Fresh? && e.state == Active && e.activity == GameActivity
            && desired.Some? && desired.value.effect == NoSchedule && desired.value.value == p.activeValue
            && HasTaint(taints, p.key, p.activeValue, NoSchedule) then GameEviction
    else if (staleHeartbeat || e.state == Stale) && desired.Some? && desired.value.effect == NoSchedule
            && HasTaint(taints, p.key, desired.value.value, NoSchedule) then LossyOnly
    else if staleHeartbeat || e.state == Stale then NoEviction
    else if desired.None? then NoEviction
    else if (e.state == Active && e.activity != GameActivity)
            || e.activity == InteractiveActivity
            || HasTaint(taints, p.key, p.interactiveValue, PreferNoSchedule)
            || (p.burstTaintKey != "" && HasTaint(taints, p.burstTaintKey, p.failClosedValue, NoSchedule)) then LossyOnly
    else NoEviction
  }

  /**
   The matrix: the class of a node whose taints follow the decision, by the reason for the
   decision. No taint list occurs in it.
   */
  function Matrix(p: TaintPolicy, e: Enrollment, reason: AdmissionReason): Class {
    var lossyIfFenced := if e.activity == InteractiveActivity || p.burstTaintKey != "" then LossyOnly else NoEviction;
    var lossyIfClosed := if p.failClosed then LossyOnly else NoEviction;
    match reason
    case InvalidHeartbeat | UnknownState | FreshIdle | ScheduledIdle => NoEviction
    case ActiveGame => GameEviction
    case ActiveInteractive | AvailabilityHold | ScheduledInteractive => LossyOnly
    case MissingHeartbeat | StaleHeartbeat | StaleState | UnsupportedActivity => lossyIfClosed
    case ScheduledGame => if e.state == Active then LossyOnly else lossyIfFenced
    case BadSchedule | UnsupportedState => if p.failClosed then lossyIfFenced else NoEviction
  }

  /**
   The class of a node whose heartbeat was too far ahead when its taints were written, and has become
   plausible since: the fail-closed taint stands in for the taint of the report.
   */
  function MatrixOncePlausible(p: TaintPolicy, e: Enrollment): Class {
    var lossyIfFenced := if e.activity == InteractiveActivity || p.burstTaintKey != "" then LossyOnly else NoEviction;
    if !p.failClosed then NoEviction
    else
      match e.state
      case Unknown => NoEviction
      case Stale => LossyOnly
      case Active =>
        if e.activity != GameActivity then LossyOnly
        else if p.failClosedValue == p.activeValue then GameEviction
        else lossyIfFenced
      case _ => lossyIfFenced
  }

  /** The matrix when the heartbeat is judged again later, by what it is then. */
  function MatrixAt(p: TaintPolicy, e: Enrollment, reason: AdmissionReason, later: Verdict): Class {
    match later
    case Future(_) => NoEviction
    case Fresh(_) => if reason == InvalidHeartbeat then MatrixOncePlausible(p, e) else Matrix(p, e, reason)
    case _ =>
      var desired := TaintFor(p, reason);
      if desired.Some? && desired.value.effect == NoSchedule then LossyOnly else NoEviction
  }

  /** The owned keys of a list carry the decision and, unless admitted, the fence. */
  ghost predicate Follows(p: TaintPolicy, taints: seq<Taint>, desired: Option<Taint>, fenced: bool) {
    && Carries(taints, p.key, desired)
    && (p.burstTaintKey != "" ==> Carries(taints, p.burstTaintKey, Fence(p, fenced)))
  }

  /** On such a list, looking for an owned taint is looking at what is desired. */
  lemma OwnedTaintsAreDesired(p: TaintPolicy, taints: seq<Taint>, desired: Option<Taint>, fenced: bool)
    requires Belongs(desired, p.key) && Follows(p, taints, desired, fenced)
    ensures forall value, effect :: HasTaint(taints, p.key, value, effect) <==>
                                    desired.Some? && desired.value.value == value && desired.value.effect == effect
    ensures p.burstTaintKey != "" ==> (HasTaint(taints, p.burstTaintKey, p.failClosedValue, NoSchedule) <==> fenced)
  {
    if p.burstTaintKey != "" && fenced {
      assert BurstTaint(p) in taints;
    }
  }

  /** A heartbeat is first future, then fresh, then expired, and a missing one stays missing. */
  lemma VerdictsMoveOn(p: TaintPolicy, at: Time, now: Time, t: Time)
    requires p.Valid() && now <= t
    ensures var v, later := p.Freshness(at, now), p.Freshness(at, t);
            && (v.Missing? <==> later.Missing?)
            && (v.Expired? ==> later.Expired?)
            && (v.Fresh? ==> later.Fresh? || later.Expired?)
  {
    if at != ZERO_TIME {
      FreshnessTimeline(at, now, p.staleAfter, p.Skew());
      FreshnessTimeline(at, t, p.staleAfter, p.Skew());
      hide HeartbeatFreshness;
    }
  }

  /** The class on a node that follows a decision is the one the matrix gives for its reason. */
  lemma ClassFollowsMatrix(p: TaintPolicy, e: Enrollment, taints: seq<Taint>, now: Time, t: Time)
    requires p.Valid() && now <= t
    requires var d := DecidePolicy(p, e, now);
             var admitted := ControllerAdmitted(p.Freshness(e.heartbeatAt, now).Fresh?, e.state, e.activity, d.taint);
             Follows(p, taints, d.taint, !admitted)
    ensures var d := DecidePolicy(p, e, now);
            EvictionClass(p, e, taints, d.taint, t) == MatrixAt(p, e, d.reason, p.Freshness(e.heartbeatAt, t))
  {
    var d := DecidePolicy(p, e, now);
    var admitted := ControllerAdmitted(p.Freshness(e.heartbeatAt, now).Fresh?, e.state, e.activity, d.taint);
    VerdictsMoveOn(p, e.heartbeatAt, now, t);
    DecisionFollowsReason(p, e, now);
    OwnedTaintsAreDesired(p, taints, d.taint, !admitted);
    hide DecidePolicy, HeartbeatFreshness, HasTaint, Follows, HoldExpiry, OpeningAt;
  }

  /** While the heartbeat is judged alike, the later verdict is not needed. */
  lemma MatrixNeedsNoVerdict(p: TaintPolicy, e: Enrollment, now: Time, t: Time)
    requires SameKind(p.Freshness(e.heartbeatAt, now), p.Freshness(e.heartbeatAt, t))
    ensures var reason := DecidePolicy(p, e, now).reason;
            MatrixAt(p, e, reason, p.Freshness(e.heartbeatAt, t)) == Matrix(p, e, reason)
  {
    DecisionFollowsReason(p, e, now);
    hide DecidePolicy, HeartbeatFreshness, HoldExpiry, OpeningAt;
  }

  /**
   The standard class on a node with any taints: exactly a fresh active game for which the active NoSchedule
   taint is both desired and there. Nothing is evicted under a heartbeat that is too far ahead, under a fresh
   unknown report, or where no taint is desired.
   */
  lemma ClassOnAnyTaints(p: TaintPolicy, e: Enrollment, taints: seq<Taint>, desired: Option<Taint>, t: Time)
    ensures var c, v := EvictionClass(p, e, taints, desired, t), p.Freshness(e.heartbeatAt, t);
            && (c == GameEviction <==>
                  && v.Fresh? && e.state == Active && e.activity == GameActivity
                  && desired.Some? && desired.value.value == p.activeValue && desired.value.effect == NoSchedule
                  && exists x | x in taints :: x.key == p.key && x.value == p.activeValue && x.effect == NoSchedule)
            && (v.Future? || (v.Fresh? && e.state == Unknown) || desired.None? ==> c == NoEviction)
            && ((v.Missing? || v.Expired? || e.state == Stale) && c == LossyOnly ==>
                  && desired.Some? && desired.value.effect == NoSchedule
                  && exists x | x in taints :: x.key == p.key && x.value == desired.value.value && x.effect == NoSchedule)
  {
    hide HeartbeatFreshness;
  }

  /** What authorizes an eviction, whenever the clock is read again. */
  lemma ClassNeedsDesiredTaint(
    p: TaintPolicy, e: Enrollment, taints: seq<Taint>, desired: Option<Taint>, fenced: bool, t: Time)
    requires p.Valid() && Belongs(desired, p.key) && Follows(p, taints, desired, fenced)
    ensures var c, v := EvictionClass(p, e, taints, desired, t), p.Freshness(e.heartbeatAt, t);
            && (v.Future? ==> c == NoEviction)
            && (c == GameEviction ==> v.Fresh? && e.state == Active && e.activity == GameActivity)
            && (c != NoEviction ==> desired.Some? && desired.value in taints)
            && (v.Missing? || v.Expired? || (v.Fresh? && e.state == Stale) ==>
                  (c == LossyOnly <==> desired.Some? && desired.value.effect == NoSchedule) && c != GameEviction)
  {
    OwnedTaintsAreDesired(p, taints, desired, fenced);
    hide HasTaint, HeartbeatFreshness;
  }

  // --- One live enrollment ------------------------------------------------------------

  lemma {:induction false} LiveAreCounted(items: seq<Enrollment>, node: string, i: nat)
    requires i < |items| && Live(items[i], node)
    ensures LiveCount(items, node) >= 1
  {
    if i < |items| - 1 {
      LiveAreCounted(items[..|items| - 1], node, i);
    }
  }

  lemma {:induction false} TwoLiveAreCounted(items: seq<Enrollment>, node: string, i: nat, j: nat)
    requires i < j < |items| && Live(items[i], node) && Live(items[j], node)
    ensures LiveCount(items, node) >= 2
  {
    var front := items[..|items| - 1];
    if j < |items| - 1 {
      TwoLiveAreCounted(front, node, i, j);
    } else {
      LiveAreCounted(front, node, i);
    }
  }

  lemma OnlyOneIsLive(items: seq<Enrollment>, node: string, x: Enrollment, y: Enrollment)
    requires LiveCount(items, node) == 1
    requires x in items && y in items && Live(x, node) && Live(y, node)
    ensures x == y
  {
    var i, j :| 0 <= i < |items| && 0 <= j < |items| && items[i] == x && items[j] == y;
    hide LiveCount, Live;
    if i < j {
      TwoLiveAreCounted(items, node, i, j);
    } else if j < i {
      TwoLiveAreCounted(items, node, j, i);
    }
  }

  /** A sole live enrollment is the source of its node's protection. */
  lemma SoleEnrollmentDecides(p: TaintPolicy, items: seq<Enrollment>, e: Enrollment, node: string, now: Time)
    requires p.Valid() && ZERO_TIME < now && DistinctKeys(items)
    requires e in items && Live(e, node) && Protect(p, items, node, now).count == 1
    ensures var r := Protect(p, items, node, now);
            && r.source == Some(e) && r.Taint() == DecidePolicy(p, e, now).taint
            && (forall x | x in items && Live(x, node) :: x == e)
  {
    ProtectionIsMeant(p, items, node, now);
    CountIsLive(p, items, node, now);
    hide Protect, DistinctKeys, WinsOver, Live, DecidePolicy, LiveCount;
    forall x | x in items && Live(x, node)
      ensures x == e
    {
      OnlyOneIsLive(items, node, x, e);
    }
  }

  lemma ReconciledFollows(p: TaintPolicy, f: Fields, r: NodeProtection, items: seq<Enrollment>, node: string, now: Time)
    requires p.Valid() && ZERO_TIME < now && DistinctKeys(items) && r == Protect(p, items, node, now)
    ensures Belongs(r.Taint(), p.key)
    ensures Follows(p, Reconciled(p, f, r, now).taints, r.Taint(), !PolicyAdmitted(p, r, now))
  {
    DecidedTaintBelongs(p, r, items, node, now);
    hide Protect, DistinctKeys, PolicyAdmitted, Written, Carries, Unowned;
    WriteOwnsOnlyItsKeys(p, f, PolicyAdmitted(p, r, now), r.Taint(), !PolicyAdmitted(p, r, now));
  }

  /**
   From any node, after the pass has decided at now and written its taints, the class read at t is the
   matrix entry for the sole enrollment, by the reason at now and what its heartbeat is at t.
   */
  lemma ReconciledClassIsMatrix(
    p: TaintPolicy, f: Fields, items: seq<Enrollment>, e: Enrollment, node: string, now: Time, t: Time)
    requires p.Valid() && ZERO_TIME < now <= t && DistinctKeys(items)
    requires e in items && Live(e, node) && Protect(p, items, node, now).count == 1
    ensures var r := Protect(p, items, node, now);
            EvictionClass(p, e, Reconciled(p, f, r, now).taints, r.Taint(), t)
            == MatrixAt(p, e, DecidePolicy(p, e, now).reason, p.Freshness(e.heartbeatAt, t))
  {
    var r := Protect(p, items, node, now);
    SoleEnrollmentDecides(p, items, e, node, now);
    ReconciledFollows(p, f, r, items, node, now);
    hide Protect, DistinctKeys, Follows, DecidePolicy, EvictionClass, MatrixAt, Reconciled, HeartbeatFreshness;
    ClassFollowsMatrix(p, e, Reconciled(p, f, r, now).taints, now, t);
  }

  /**
   Whatever the clock does between the decision and the class, a standard Pod is evictable only for
   a fresh active game, a future heartbeat evicts nothing, and anything evicted leaves a node that
   carries the desired taint and is not admitted.
   */
  lemma EvictionIsFenced(
    p: TaintPolicy, f: Fields, items: seq<Enrollment>, e: Enrollment, node: string, now: Time, t: Time)
    requires p.Valid() && ZERO_TIME < now <= t && DistinctKeys(items)
    requires e in items && Live(e, node) && Protect(p, items, node, now).count == 1
    ensures var r := Protect(p, items, node, now);
            var after := Reconciled(p, f, r, now);
            var c := EvictionClass(p, e, after.taints, r.Taint(), t);
            && (p.Freshness(e.heartbeatAt, t).Future? ==> c == NoEviction)
            && (c == GameEviction ==>
                  && p.Freshness(e.heartbeatAt, t).Fresh? && e.state == Active && e.activity == GameActivity
                  && forall x | x in items && Live(x, node) :: x == e)
            && (c != NoEviction ==>
                  && r.Taint().Some? && r.Taint().value in after.taints
                  && !PolicyAdmitted(p, r, now) && SCHEDULABLE_LABEL !in after.labels)
  {
    var r := Protect(p, items, node, now);
    SoleEnrollmentDecides(p, items, e, node, now);
    ReconciledFollows(p, f, r, items, node, now);
    hide Protect, DistinctKeys, Follows, DecidePolicy, EvictionClass, Own, HeartbeatFreshness, Live;
    ClassNeedsDesiredTaint(p, e, Reconciled(p, f, r, now).taints, r.Taint(), !PolicyAdmitted(p, r, now), t);
    WriteLabelsAdmission(p, f, PolicyAdmitted(p, r, now), r.Taint(), !PolicyAdmitted(p, r, now));
  }
}
