/** What a node's protection means, and why the controller never sleeps past a change of it. */
module RequeueLaws {
  import opened Clock
  import opened Outcomes
  import opened Heartbeats
  import opened Enrollments
  import opened PolicyDecisions
  import opened DecisionLaws
  import opened Protection
  import opened ProtectionLaws

  /** a wins over b: a higher rank, or the same rank and no later in the list order. */
  ghost predicate WinsOver(p: TaintPolicy, a: Enrollment, b: Enrollment, now: Time) {
    Rank(p, a, now) > Rank(p, b, now) || (Rank(p, a, now) == Rank(p, b, now) && !Before(b, a))
  }

  /** The source is the winner among the live enrollments, and its decision stands. */
  ghost predicate WinnerMeans(p: TaintPolicy, items: seq<Enrollment>, node: string, now: Time, r: NodeProtection) {
    if r.source.None? then r.decision.None? && forall e | e in items :: !Live(e, node)
    else
      && r.source.value in items && Live(r.source.value, node)
      && r.decision == Some(DecidePolicy(p, r.source.value, now))
      && forall e | e in items && Live(e, node) :: WinsOver(p, r.source.value, e, now)
  }

  /** The requeue is the earliest that any live enrollment asks for. */
  ghost predicate RequeueMeans(p: TaintPolicy, items: seq<Enrollment>, node: string, now: Time, r: NodeProtection) {
    if r.source.None? then r.requeueAfter == 0
    else
      && r.requeueAfter > 0
      && (exists e | e in items && Live(e, node) :: r.requeueAfter == DecidePolicy(p, e, now).requeueAfter)
      && forall e | e in items && Live(e, node) :: r.requeueAfter <= DecidePolicy(p, e, now).requeueAfter
  }

  function LiveCount(items: seq<Enrollment>, node: string): nat {
    if items == [] then 0
    else
      var last := items[|items| - 1];
      LiveCount(items[..|items| - 1], node) + if last.nodeName == node && !last.deleting then 1 else 0
  }

  lemma WinnerAfter(p: TaintPolicy, items: seq<Enrollment>, e: Enrollment, node: string, now: Time, r: NodeProtection)
    requires WinnerMeans(p, items, node, now, r) && Live(e, node)
    requires forall x | x in items :: !Before(e, x)
    ensures WinnerMeans(p, items + [e], node, now, AddEnrollment(p, r, BestRank(p, r, now), e, now))
  {
    BeforeIsStrictOrder(e, e);
    hide Before, Rank, DecidePolicy, Live;
    var after := AddEnrollment(p, r, BestRank(p, r, now), e, now);
    forall x | x in items + [e] && Live(x, node)
      ensures WinsOver(p, after.source.value, x, now)
    {
      if x in items {
        assert WinsOver(p, r.source.value, x, now);
      }
    }
  }

  lemma RequeueAfterAdding(
    p: TaintPolicy, items: seq<Enrollment>, e: Enrollment, node: string, now: Time, r: NodeProtection)
    requires RequeueMeans(p, items, node, now, r) && Live(e, node)
    requires r.source.None? ==> forall x | x in items :: !Live(x, node)
    requires DecidePolicy(p, e, now).requeueAfter > 0
    ensures RequeueMeans(p, items + [e], node, now, AddEnrollment(p, r, BestRank(p, r, now), e, now))
  {
    hide Rank, DecidePolicy, Live;
    var after := AddEnrollment(p, r, BestRank(p, r, now), e, now);
    if after.requeueAfter == DecidePolicy(p, e, now).requeueAfter {
      assert e in items + [e];
    } else {
      var x :| x in items && Live(x, node) && r.requeueAfter == DecidePolicy(p, x, now).requeueAfter;
      assert x in items + [e];
    }
  }

  /** The next enrollment in order, live or not. */
  lemma NextIsMeant(p: TaintPolicy, items: seq<Enrollment>, e: Enrollment, node: string, now: Time, r: NodeProtection)
    requires p.Valid() && ZERO_TIME < now
    requires WinnerMeans(p, items, node, now, r) && RequeueMeans(p, items, node, now, r)
    requires forall x | x in items :: !Before(e, x)
    ensures var after := if Live(e, node) then AddEnrollment(p, r, BestRank(p, r, now), e, now) else r;
            WinnerMeans(p, items + [e], node, now, after) && RequeueMeans(p, items + [e], node, now, after)
  {
    hide Before, DecidePolicy, Rank, WinsOver, Live;
    if Live(e, node) {
      RequeueIsPositive(p, e, now);
      WinnerAfter(p, items, e, node, now, r);
      RequeueAfterAdding(p, items, e, node, now, r);
      hide WinnerMeans, RequeueMeans;
    }
  }

  lemma {:induction false} FoldedIsMeant(p: TaintPolicy, sorted: seq<Enrollment>, k: nat, node: string, now: Time)
    requires p.Valid() && ZERO_TIME < now && InOrder(sorted) && k <= |sorted|
    ensures var r := Folded(p, sorted, k, node, now);
            && WinnerMeans(p, sorted[..k], node, now, r)
            && RequeueMeans(p, sorted[..k], node, now, r)
            && r.count == LiveCount(sorted[..k], node)
  {
    hide DecidePolicy, Rank, WinsOver, TaintPolicy.Valid;
    if k > 0 {
      var e := sorted[k - 1];
      assert Live(e, node) <==> e.nodeName == node && !e.deleting;
      hide Live;
      FoldedIsMeant(p, sorted, k - 1, node, now);
      hide WinnerMeans, RequeueMeans;
      assert sorted[..k] == sorted[..k - 1] + [e];
      assert sorted[..k][..k - 1] == sorted[..k - 1];
      forall x | x in sorted[..k - 1]
        ensures !Before(e, x)
      {
        BeforeIsStrictOrder(x, e);
      }
      hide InOrder, Before;
      NextIsMeant(p, sorted[..k - 1], e, node, now, Folded(p, sorted, k - 1, node, now));
    }
  }

  lemma SortedHoldsSame(items: seq<Enrollment>)
    ensures forall e :: e in Sorted(items) <==> e in items
  {
    SortedKeepsItems(items);
    forall e
      ensures e in Sorted(items) <==> e in items
    {
      assert e in multiset(Sorted(items)) <==> e in multiset(items);
    }
  }

  /** The protection of a node is the strongest decision among its live enrollments. */
  lemma ProtectionIsMeant(p: TaintPolicy, items: seq<Enrollment>, node: string, now: Time)
    requires p.Valid() && ZERO_TIME < now && DistinctKeys(items)
    ensures WinnerMeans(p, items, node, now, Protect(p, items, node, now))
    ensures RequeueMeans(p, items, node, now, Protect(p, items, node, now))
  {
    SortedIsInOrder(items);
    SortedHoldsSame(items);
    FoldedIsMeant(p, Sorted(items), |Sorted(items)|, node, now);
    assert Sorted(items)[..|Sorted(items)|] == Sorted(items);
    hide InOrder, DistinctKeys, Live, DecidePolicy, WinsOver, Folded, Sorted;
  }

  lemma {:induction false} LiveCountAdds(a: seq<Enrollment>, b: seq<Enrollment>, node: string)
    ensures LiveCount(a + b, node) == LiveCount(a, node) + LiveCount(b, node)
  {
    if b == [] {
      assert a + b == a;
    } else {
      var last := |b| - 1;
      LiveCountAdds(a, b[..last], node);
      assert (a + b)[..|a + b| - 1] == a + b[..last];
    }
  }

  lemma {:induction false} SortedKeepsLiveCount(items: seq<Enrollment>, node: string)
    ensures LiveCount(Sorted(items), node) == LiveCount(items, node)
  {
    if items != [] {
      SortedKeepsLiveCount(items[1..], node);
      InsertCounts(items[0], Sorted(items[1..]), node);
      LiveCountAdds([items[0]], items[1..], node);
      assert [items[0]] + items[1..] == items;
    }
  }

  lemma {:induction false} InsertCounts(e: Enrollment, sorted: seq<Enrollment>, node: string)
    ensures LiveCount(Insert(e, sorted), node) == LiveCount([e], node) + LiveCount(sorted, node)
  {
    if sorted == [] || Before(e, sorted[0]) {
      LiveCountAdds([e], sorted, node);
    } else {
      InsertCounts(e, sorted[1..], node);
      LiveCountAdds([sorted[0]], sorted[1..], node);
      LiveCountAdds([sorted[0]], Insert(e, sorted[1..]), node);
      assert [sorted[0]] + sorted[1..] == sorted;
    }
  }

  /** More than one live enrollment is counted, whatever their protection. */
  lemma CountIsLive(p: TaintPolicy, items: seq<Enrollment>, node: string, now: Time)
    requires p.Valid() && ZERO_TIME < now && DistinctKeys(items)
    ensures Protect(p, items, node, now).count == LiveCount(items, node)
  {
    SortedIsInOrder(items);
    SortedKeepsLiveCount(items, node);
    FoldedIsMeant(p, Sorted(items), |Sorted(items)|, node, now);
    assert Sorted(items)[..|Sorted(items)|] == Sorted(items);
    hide InOrder, DistinctKeys, Live, DecidePolicy, WinnerMeans, RequeueMeans, Folded, Sorted;
  }

  /** A fresh report of an active game. */
  predicate Playing(p: TaintPolicy, e: Enrollment, now: Time) {
    e.state == Active && e.activity == GameActivity && p.Freshness(e.heartbeatAt, now).Fresh?
  }

  /**
   What strongest means: a fresh active game gets its taint whatever else is enrolled, any desired
   NoSchedule taint keeps the node from new Pods, and any desired taint leaves one.
   */
  lemma StrongestTaintWins(p: TaintPolicy, items: seq<Enrollment>, node: string, now: Time, e: Enrollment)
    requires p.Valid() && ZERO_TIME < now && DistinctKeys(items) && e in items && Live(e, node)
    ensures var r, wanted := Protect(p, items, node, now), DecidePolicy(p, e, now).taint;
            && r.source.Some?
            && (Playing(p, e, now) ==> r.Taint() == Some(p.ActiveTaint()) && Playing(p, r.source.value, now))
            && (wanted.Some? ==> r.Taint().Some?)
            && (wanted.Some? && wanted.value.effect == NoSchedule ==> r.Taint().value.effect == NoSchedule)
  {
    var r := Protect(p, items, node, now);
    ProtectionIsMeant(p, items, node, now);
    hide Protect, DistinctKeys, Live, Before, HeartbeatFreshness;
    DecisionFollowsReason(p, e, now);
    DecisionFollowsReason(p, r.source.value, now);
    hide DecidePolicy, OpeningAt, HoldExpiry;
  }

  /** One more live enrollment never weakens the protection. */
  lemma AddingNeverWeakens(p: TaintPolicy, items: seq<Enrollment>, e: Enrollment, node: string, now: Time)
    requires p.Valid() && ZERO_TIME < now && DistinctKeys(items) && DistinctKeys(items + [e])
    ensures BestRank(p, Protect(p, items + [e], node, now), now) >= BestRank(p, Protect(p, items, node, now), now)
    ensures Live(e, node) ==> BestRank(p, Protect(p, items + [e], node, now), now) >= Rank(p, e, now)
  {
    ProtectionIsMeant(p, items, node, now);
    ProtectionIsMeant(p, items + [e], node, now);
    hide Protect, DistinctKeys, Rank, Live, DecidePolicy, Before;
    assert e in items + [e];
    var r := Protect(p, items, node, now);
    if r.source.Some? {
      assert r.source.value in items + [e];
    }
  }

  /** Failing closed, a node is admitted only if every live enrollment is fresh and wants no taint. */
  lemma AdmittedMeansAllStandDown(p: TaintPolicy, items: seq<Enrollment>, node: string, now: Time, e: Enrollment)
    requires p.Valid() && p.failClosed && ZERO_TIME < now && DistinctKeys(items)
    requires PolicyAdmitted(p, Protect(p, items, node, now), now)
    requires e in items && Live(e, node)
    ensures DecidePolicy(p, e, now).taint.None? && p.Freshness(e.heartbeatAt, now).Fresh?
  {
    ProtectionIsMeant(p, items, node, now);
    DecisionFollowsReason(p, e, now);
    hide Protect, DistinctKeys, Live, DecidePolicy, Before, HeartbeatFreshness, FreshReason;
  }

  // --- Never sleeping past a change ----------------------------------------------------

  /** Every live enrollment's schedule is what parsing gives. */
  ghost predicate AllParsed(items: seq<Enrollment>, node: string) {
    forall e | e in items && Live(e, node) :: Parsed(e.schedule)
  }

  /** No live enrollment is surprised at t. */
  ghost predicate Unsurprised(p: TaintPolicy, items: seq<Enrollment>, node: string, now: Time, t: Time) {
    forall e | e in items && Live(e, node) :: !Surprised(p, e, now, t)
  }

  /** Schedules that have an answer at now, or never could, do not surprise. */
  lemma SettledNeverSurprise(p: TaintPolicy, items: seq<Enrollment>, node: string, now: Time, t: Time)
    requires forall e | e in items && Live(e, node) :: Settled(e.schedule, now)
    ensures Unsurprised(p, items, node, now, t)
  {
    hide Settled;
  }

  lemma RankHolds(p: TaintPolicy, e: Enrollment, now: Time, t: Time)
    requires p.Valid() && Parsed(e.schedule) && !Surprised(p, e, now, t)
    requires ZERO_TIME < now <= t < now + DecidePolicy(p, e, now).requeueAfter
    ensures Rank(p, e, t) == Rank(p, e, now)
    ensures DecidePolicy(p, e, t).taint == DecidePolicy(p, e, now).taint
  {
    TaintHoldsUntilRequeue(p, e, now, t);
    DecisionFollowsReason(p, e, now);
    hide DecidePolicy, OpeningAt, HoldExpiry, Surprised;
  }

  lemma {:induction false} FoldedHolds(p: TaintPolicy, sorted: seq<Enrollment>, k: nat, node: string, now: Time, t: Time)
    requires p.Valid() && ZERO_TIME < now <= t && k <= |sorted|
    requires AllParsed(sorted, node) && Unsurprised(p, sorted, node, now, t)
    requires forall e | e in sorted && Live(e, node) :: t < now + DecidePolicy(p, e, now).requeueAfter
    ensures var a, b := Folded(p, sorted, k, node, now), Folded(p, sorted, k, node, t);
            && b.source == a.source && b.Taint() == a.Taint() && b.count == a.count
            && BestRank(p, b, t) == BestRank(p, a, now)
  {
    if k > 0 {
      FoldedHolds(p, sorted, k - 1, node, now, t);
      var e := sorted[k - 1];
      if Live(e, node) {
        assert e in sorted;
        RankHolds(p, e, now, t);
      }
      hide DecidePolicy, Rank, Live, Parsed, AllParsed, Unsurprised, Surprised;
    }
  }

  /**
   No overslept change. While the enrollments stay as they are and none is surprised, the node's
   taint, the winner and the number of live enrollments are the same at every instant before the requeue.
   */
  lemma ProtectionHoldsUntilRequeue(p: TaintPolicy, items: seq<Enrollment>, node: string, now: Time, t: Time)
    requires p.Valid() && ZERO_TIME < now && DistinctKeys(items)
    requires AllParsed(items, node) && Unsurprised(p, items, node, now, t)
    requires now <= t < now + Protect(p, items, node, now).requeueAfter
    ensures var a, b := Protect(p, items, node, now), Protect(p, items, node, t);
            b.source == a.source && b.Taint() == a.Taint() && b.count == a.count
  {
    ProtectionIsMeant(p, items, node, now);
    SortedHoldsSame(items);
    hide DistinctKeys, WinnerMeans, DecidePolicy, Sorted, Folded, Parsed, Surprised, Live;
    FoldedHolds(p, Sorted(items), |Sorted(items)|, node, now, t);
  }

  /** A live enrollment always brings the controller back. */
  lemma LiveEnrollmentRequeues(p: TaintPolicy, items: seq<Enrollment>, node: string, now: Time, e: Enrollment)
    requires p.Valid() && ZERO_TIME < now && DistinctKeys(items)
    requires e in items && Live(e, node)
    ensures Protect(p, items, node, now).requeueAfter > 0
    ensures Protect(p, items, node, now).requeueAfter <= DecidePolicy(p, e, now).requeueAfter
  {
    ProtectionIsMeant(p, items, node, now);
    hide DistinctKeys, DecidePolicy, Protect, Live, WinsOver;
  }

  /** Admission stays as it is until the requeue. */
  ghost predicate AdmissionHolds(p: TaintPolicy, items: seq<Enrollment>, node: string, now: Time) {
    forall t | now <= t < now + Protect(p, items, node, now).requeueAfter ::
      PolicyAdmitted(p, Protect(p, items, node, t), t) == PolicyAdmitted(p, Protect(p, items, node, now), now)
  }

  /** No live enrollment is surprised before the requeue. */
  ghost predicate NoSurprise(p: TaintPolicy, items: seq<Enrollment>, node: string, now: Time) {
    forall t | now <= t < now + Protect(p, items, node, now).requeueAfter :: Unsurprised(p, items, node, now, t)
  }

  /** An admitted winner whose schedule has no answer, and whose heartbeat expires before the requeue. */
  predicate ExpiresUnseen(p: TaintPolicy, r: NodeProtection, now: Time) {
    && PolicyAdmitted(p, r, now)
    && OpeningAt(r.source.value.schedule, now) == NoAnswer
    && r.source.value.heartbeatAt + p.staleAfter < now + r.requeueAfter
  }

  /** The winner's freshness at t, when its decision and its wait are known. */
  lemma AdmittedSourceHolds(p: TaintPolicy, e: Enrollment, now: Time, t: Time)
    requires p.Valid() && Parsed(e.schedule)
    requires ZERO_TIME < now <= t < now + DecidePolicy(p, e, now).requeueAfter
    requires DecidePolicy(p, e, now).taint.None? && e.state == Idle
    requires p.Freshness(e.heartbeatAt, now).Fresh? && OpeningAt(e.schedule, now) == NoAnswer ==> t < e.heartbeatAt + p.staleAfter
    ensures p.Freshness(e.heartbeatAt, t).Fresh? == p.Freshness(e.heartbeatAt, now).Fresh?
  {
    TaintHoldsUntilRequeue(p, e, now, t);
    DecisionFollowsReason(p, e, now);
    if p.Freshness(e.heartbeatAt, now).Fresh? {
      FreshnessTimeline(e.heartbeatAt, now, p.staleAfter, p.Skew());
      FreshnessTimeline(e.heartbeatAt, t, p.staleAfter, p.Skew());
    }
    hide DecidePolicy, HoldExpiry, HeartbeatFreshness, OpeningAt, Surprised;
  }

  lemma AdmissionHoldsAt(p: TaintPolicy, items: seq<Enrollment>, node: string, now: Time, t: Time)
    requires p.Valid() && ZERO_TIME < now && DistinctKeys(items)
    requires AllParsed(items, node) && Unsurprised(p, items, node, now, t)
    requires now <= t < now + Protect(p, items, node, now).requeueAfter
    requires !ExpiresUnseen(p, Protect(p, items, node, now), now)
    ensures PolicyAdmitted(p, Protect(p, items, node, t), t) == PolicyAdmitted(p, Protect(p, items, node, now), now)
  {
    var r := Protect(p, items, node, now);
    ProtectionHoldsUntilRequeue(p, items, node, now, t);
    ProtectionIsMeant(p, items, node, now);
    if r.source.Some? {
      var e := r.source.value;
      hide Protect, DistinctKeys, Live, HeartbeatFreshness, Parsed, OpeningAt, Unsurprised;
      assert DecidePolicy(p, e, now).requeueAfter >= r.requeueAfter;
      if r.Taint().None? && e.state == Idle && e.activity == IdleActivity {
        AdmittedSourceHolds(p, e, now, t);
      }
      hide DecidePolicy;
    }
  }

  lemma ExpiredIsNotAdmitted(p: TaintPolicy, r: NodeProtection, t: Time)
    requires r.source.Some? && !p.Freshness(r.source.value.heartbeatAt, t).Fresh?
    ensures !PolicyAdmitted(p, r, t)
  {
  }

  lemma ExpiryLiesBefore(p: TaintPolicy, r: NodeProtection, now: Time)
    requires p.Valid() && ZERO_TIME < now && ExpiresUnseen(p, r, now)
    ensures r.source.Some?
    ensures var deadline := r.source.value.heartbeatAt + p.staleAfter;
            && now < deadline < now + r.requeueAfter && !p.Freshness(r.source.value.heartbeatAt, deadline).Fresh?
            && PolicyAdmitted(p, r, now)
  {
    var e := r.source.value;
    FreshnessTimeline(e.heartbeatAt, now, p.staleAfter, p.Skew());
    FreshnessTimeline(e.heartbeatAt, e.heartbeatAt + p.staleAfter, p.staleAfter, p.Skew());
    hide HeartbeatFreshness, OpeningAt;
  }

  /** Where a winner has expired and nothing surprised, the node is not admitted. */
  lemma ExpiryEndsAdmission(
    p: TaintPolicy, items: seq<Enrollment>, node: string, now: Time, t: Time, r: NodeProtection)
    requires p.Valid() && ZERO_TIME < now && DistinctKeys(items)
    requires AllParsed(items, node) && Unsurprised(p, items, node, now, t)
    requires r == Protect(p, items, node, now) && r.source.Some? && now <= t < now + r.requeueAfter
    requires !p.Freshness(r.source.value.heartbeatAt, t).Fresh?
    ensures !PolicyAdmitted(p, Protect(p, items, node, t), t)
  {
    hide Protect, DistinctKeys, Unsurprised, AllParsed, PolicyAdmitted, TaintPolicy.Freshness, TaintPolicy.Valid;
    ProtectionHoldsUntilRequeue(p, items, node, now, t);
    ExpiredIsNotAdmitted(p, Protect(p, items, node, t), t);
  }

  lemma FailingClosedNeverExpiresUnseen(p: TaintPolicy, items: seq<Enrollment>, node: string, now: Time)
    requires p.Valid() && ZERO_TIME < now && DistinctKeys(items) && p.failClosed
    ensures !ExpiresUnseen(p, Protect(p, items, node, now), now)
  {
    var r := Protect(p, items, node, now);
    ProtectionIsMeant(p, items, node, now);
    hide Protect, DistinctKeys, Live, WinsOver, HeartbeatFreshness;
    if PolicyAdmitted(p, r, now) {
      DecisionFollowsReason(p, r.source.value, now);
      hide DecidePolicy, OpeningAt, HoldExpiry;
    }
  }

  /**
   Without a surprise, admission changes unseen exactly when an admitted winner whose schedule has no
   answer expires before the requeue. Failing closed rules that out.
   */
  lemma AdmissionHoldsIffNothingExpiresUnseen(p: TaintPolicy, items: seq<Enrollment>, node: string, now: Time)
    requires p.Valid() && ZERO_TIME < now && DistinctKeys(items)
    requires AllParsed(items, node) && NoSurprise(p, items, node, now)
    ensures AdmissionHolds(p, items, node, now) <==> !ExpiresUnseen(p, Protect(p, items, node, now), now)
    ensures p.failClosed ==> AdmissionHolds(p, items, node, now)
  {
    var r := Protect(p, items, node, now);
    hide PolicyAdmitted, Protect, DistinctKeys, AllParsed, Unsurprised, TaintPolicy.Freshness;
    if p.failClosed {
      FailingClosedNeverExpiresUnseen(p, items, node, now);
    }
    if ExpiresUnseen(p, r, now) {
      ExpiryLiesBefore(p, r, now);
      ExpiryEndsAdmission(p, items, node, now, r.source.value.heartbeatAt + p.staleAfter, r);
    } else {
      hide ExpiresUnseen;
      forall t | now <= t < now + r.requeueAfter
        ensures PolicyAdmitted(p, Protect(p, items, node, t), t) == PolicyAdmitted(p, r, now)
      {
        AdmissionHoldsAt(p, items, node, now, t);
      }
    }
  }

  /** Not failing closed, an admitted host with an invalid schedule always expires unseen. */
  lemma InvalidScheduleExpiresUnseen(p: TaintPolicy, e: Enrollment, node: string, now: Time)
    requires p.Valid() && !p.failClosed && ZERO_TIME < now && Live(e, node)
    requires e.schedule == InvalidSchedule && HoldExpiry(e.hold) <= now
    requires e.state == Idle && e.activity == IdleActivity && p.Freshness(e.heartbeatAt, now).Fresh?
    ensures ExpiresUnseen(p, Protect(p, [e], node, now), now) <==> e.heartbeatAt < now
    ensures NoSurprise(p, [e], node, now)
  {
    ProtectionIsMeant(p, [e], node, now);
    assert e in [e];
    DecisionFollowsReason(p, e, now);
    RequeueByReason(p, e, now);
    assert WindowWait(e.schedule, now) == 0 && OpeningAt(e.schedule, now) == NoAnswer;
    hide Protect, DecidePolicy, HoldExpiry, HeartbeatFreshness, OpeningAt, WinsOver, Rank, WindowWait;
  }

  const EXAMPLE_POLICY := TaintPolicy("k", "interactive", "active", "closed", "", 5 * MINUTE, 0, false)

  const EXAMPLE := Enrollment("ns", "n", "node", false, InvalidSchedule, Hold(None, None), Idle, IdleActivity, MINUTE)

  /** One that does: admitted at four minutes, to be looked at again at nine, expired at six. */
  lemma AdmissionCanExpireUnseen()
    ensures var p, now := EXAMPLE_POLICY, 4 * MINUTE;
            && p.Valid() && AllParsed([EXAMPLE], "node") && NoSurprise(p, [EXAMPLE], "node", now)
            && ExpiresUnseen(p, Protect(p, [EXAMPLE], "node", now), now)
  {
    hide Protect, NoSurprise, ExpiresUnseen;
    InvalidScheduleExpiresUnseen(EXAMPLE_POLICY, EXAMPLE, "node", 4 * MINUTE);
  }
}
