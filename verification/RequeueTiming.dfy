/** What a requeue waits for: an input that changes, or else a look that is early. */
module RequeueTiming {
  import opened Clock
  import opened Windows
  import opened WindowLaws
  import opened WindowEvaluation
  import opened Heartbeats
  import opened Enrollments
  import opened PolicyDecisions
  import opened DecisionLaws

  /** At t the heartbeat becomes plausible or expires. */
  predicate HeartbeatTurns(p: TaintPolicy, e: Enrollment, t: Time) {
    !SameKind(p.Freshness(e.heartbeatAt, t - 1), p.Freshness(e.heartbeatAt, t))
  }

  /** At t some occurrence of some window starts its lead time, starts, or ends. */
  ghost predicate WindowTurns(s: ParsedSchedule, t: Time) {
    s.Schedule? && exists i | 0 <= i < |s.windows| :: Boundary(s.windows[i], s.lead, t)
  }

  /** Reasons that windows can replace by another. */
  predicate Heeds(reason: AdmissionReason) {
    reason in {FreshIdle, ScheduledGame, ScheduledInteractive, ScheduledIdle, ActiveInteractive, UnsupportedActivity}
  }

  /** At t something changes that a decision for this reason depends on. */
  ghost predicate Due(p: TaintPolicy, e: Enrollment, reason: AdmissionReason, t: Time) {
    || HeartbeatTurns(p, e, t)
    || (reason == AvailabilityHold && HoldExpiry(e.hold) == t)
    || (Heeds(reason) && WindowTurns(e.schedule, t))
  }

  /** A look that nothing calls for: the poll of a closed node, or a window that the reason does not heed. */
  ghost predicate Early(p: TaintPolicy, e: Enrollment, reason: AdmissionReason, now: Time, t: Time) {
    || (Closes(reason) && t == now + p.staleAfter)
    || (!Heeds(reason) && reason != AvailabilityHold && WindowTurns(e.schedule, t))
  }

  lemma WaitEndsAtBoundary(s: ParsedSchedule, now: Time)
    requires Parsed(s) && ZERO_TIME < now && WindowWait(s, now) > 0
    ensures WindowTurns(s, now + WindowWait(s, now))
  {
    EvaluationIsMeant(s.windows, now, s.lead);
    hide Evaluate, StrongestOpen, NextStart, AllAnswer, ValidWindows, Boundary;
  }

  lemma ExpiryTurns(p: TaintPolicy, e: Enrollment)
    requires p.Valid() && e.heartbeatAt != ZERO_TIME
    ensures HeartbeatTurns(p, e, e.heartbeatAt + p.staleAfter) && HeartbeatTurns(p, e, e.heartbeatAt - p.Skew())
  {
    var at := e.heartbeatAt;
    FreshnessTimeline(at, at + p.staleAfter - 1, p.staleAfter, p.Skew());
    FreshnessTimeline(at, at + p.staleAfter, p.staleAfter, p.Skew());
    FreshnessTimeline(at, at - p.Skew() - 1, p.staleAfter, p.Skew());
    FreshnessTimeline(at, at - p.Skew(), p.staleAfter, p.Skew());
    hide HeartbeatFreshness;
  }

  lemma OnlyMissingIsUnset(p: TaintPolicy, e: Enrollment, now: Time)
    ensures var reason := DecidePolicy(p, e, now).reason;
            reason == InvalidHeartbeat || !Closes(reason) ==> e.heartbeatAt != ZERO_TIME
  {
    DecisionFollowsReason(p, e, now);
    hide DecidePolicy, OpeningAt, HoldExpiry;
  }

  /** The instants that a requeue can be. */
  lemma BoundaryIsOneOf(p: TaintPolicy, e: Enrollment, reason: AdmissionReason, wait: Duration, now: Time, t: Time)
    requires LeastOf(t, Boundaries(p, e, reason, wait, now))
    ensures || (reason == AvailabilityHold && t == HoldExpiry(e.hold))
            || (reason != AvailabilityHold && wait > 0 && t == now + wait)
            || (Closes(reason) && t == now + p.staleAfter)
            || (!Closes(reason) && t == e.heartbeatAt + p.staleAfter)
            || (reason == InvalidHeartbeat && t == e.heartbeatAt - p.Skew())
  {
    hide Closes, HoldExpiry, TaintPolicy.Skew;
  }

  /** A requeue is for an input of the decision that changes at that instant, or it is early. */
  lemma RequeueIsDueOrEarly(p: TaintPolicy, e: Enrollment, now: Time)
    requires p.Valid() && Parsed(e.schedule) && ZERO_TIME < now
    ensures var d := DecidePolicy(p, e, now);
            Due(p, e, d.reason, now + d.requeueAfter) || Early(p, e, d.reason, now, now + d.requeueAfter)
  {
    hide DecidePolicy, WindowWait, HoldExpiry, HeartbeatTurns, WindowTurns, Parsed, TaintPolicy.Valid, TaintPolicy.Skew, LeastOf, Boundaries;
    var d, wait := DecidePolicy(p, e, now), WindowWait(e.schedule, now);
    RequeueIsLeastBoundary(p, e, now);
    BoundaryIsOneOf(p, e, d.reason, wait, now, now + d.requeueAfter);
    OnlyMissingIsUnset(p, e, now);
    if wait > 0 {
      WaitEndsAtBoundary(e.schedule, now);
    }
    if e.heartbeatAt != ZERO_TIME {
      ExpiryTurns(p, e);
    }
  }

  // --- What an early look finds --------------------------------------------------------

  /** A missing or expired heartbeat decides the same for ever. */
  lemma StaleNeverChanges(p: TaintPolicy, e: Enrollment, now: Time, t: Time)
    requires p.Valid() && now <= t && DecidePolicy(p, e, now).reason in {MissingHeartbeat, StaleHeartbeat}
    ensures DecidePolicy(p, e, t).reason == DecidePolicy(p, e, now).reason
    ensures DecidePolicy(p, e, t).taint == DecidePolicy(p, e, now).taint
  {
    DecisionFollowsReason(p, e, now);
    DecisionFollowsReason(p, e, t);
    if e.heartbeatAt != ZERO_TIME {
      FreshnessTimeline(e.heartbeatAt, now, p.staleAfter, p.Skew());
      FreshnessTimeline(e.heartbeatAt, t, p.staleAfter, p.Skew());
      hide HeartbeatFreshness;
    }
    hide DecidePolicy, OpeningAt, HoldExpiry;
  }

  /** A live game decides the same until its heartbeat expires, whatever windows open and close. */
  lemma GameHoldsToDeadline(p: TaintPolicy, e: Enrollment, now: Time, t: Time)
    requires p.Valid() && DecidePolicy(p, e, now).reason == ActiveGame && now <= t
    ensures DecidePolicy(p, e, t).reason == (if t < e.heartbeatAt + p.staleAfter then ActiveGame else StaleHeartbeat)
  {
    DecisionFollowsReason(p, e, now);
    DecisionFollowsReason(p, e, t);
    FreshnessTimeline(e.heartbeatAt, now, p.staleAfter, p.Skew());
    FreshnessTimeline(e.heartbeatAt, t, p.staleAfter, p.Skew());
    hide DecidePolicy, OpeningAt, HoldExpiry, HeartbeatFreshness;
  }

  /** A report of an unknown, stale or unsupported state closes the node for ever. */
  lemma ClosedStatesStayClosed(p: TaintPolicy, e: Enrollment, now: Time, t: Time)
    requires p.Valid() && now <= t && DecidePolicy(p, e, now).reason in {UnknownState, StaleState, UnsupportedState}
    ensures DecidePolicy(p, e, t).taint == p.FailClosedTaint()
  {
    DecisionFollowsReason(p, e, now);
    DecisionFollowsReason(p, e, t);
    hide DecidePolicy, OpeningAt, HoldExpiry, HeartbeatFreshness;
  }

  /** A heartbeat that is too far ahead, and has not become plausible. */
  lemma FutureStaysFuture(p: TaintPolicy, e: Enrollment, now: Time, t: Time)
    requires p.Valid() && DecidePolicy(p, e, now).reason == InvalidHeartbeat && now <= t <= e.heartbeatAt - p.Skew()
    requires !HeartbeatTurns(p, e, t)
    ensures DecidePolicy(p, e, t).taint == DecidePolicy(p, e, now).taint && !Surprised(p, e, now, t)
  {
    DecisionFollowsReason(p, e, now);
    DecisionFollowsReason(p, e, t);
    assert e.heartbeatAt != ZERO_TIME;
    ExpiryTurns(p, e);
    FreshnessTimeline(e.heartbeatAt, t, p.staleAfter, p.Skew());
    hide DecidePolicy, OpeningAt, HoldExpiry, HeartbeatFreshness;
  }

  /** Where windows have a say but are not due, they say the same, unless they surprise. */
  lemma QuietWindowsHold(p: TaintPolicy, e: Enrollment, now: Time, t: Time)
    requires p.Valid() && Parsed(e.schedule) && ZERO_TIME < now < t
    requires DecidePolicy(p, e, now).reason in {BadSchedule, UnsupportedActivity}
    requires WithinWait(e.schedule, now, t)
    ensures DecidePolicy(p, e, t).taint == DecidePolicy(p, e, now).taint <==> !Surprised(p, e, now, t)
  {
    DecisionFollowsReason(p, e, now);
    DecisionFollowsReason(p, e, t);
    if e.heartbeatAt != ZERO_TIME {
      FreshnessTimeline(e.heartbeatAt, now, p.staleAfter, p.Skew());
      FreshnessTimeline(e.heartbeatAt, t, p.staleAfter, p.Skew());
    }
    assert !Settled(e.schedule, now) ==> OpeningAt(e.schedule, now) == NoAnswer;
    hide HeartbeatFreshness, EvaluateSchedule, Parsed, DecidePolicy, HoldExpiry, OpeningAt, WithinWait, Settled;
    if Settled(e.schedule, now) {
      OpeningIsStable(e.schedule, now, t);
    }
  }

  /** Where nothing is due at the requeue, what is left of the instants it could be. */
  lemma NotDueLeaves(p: TaintPolicy, e: Enrollment, now: Time)
    requires p.Valid() && Parsed(e.schedule) && ZERO_TIME < now
    requires var d := DecidePolicy(p, e, now); !Due(p, e, d.reason, now + d.requeueAfter)
    ensures var d := DecidePolicy(p, e, now);
            var wake := now + d.requeueAfter;
            && now < wake && !HeartbeatTurns(p, e, wake)
            && (d.reason == InvalidHeartbeat ==> wake < e.heartbeatAt - p.Skew())
            && (!Closes(d.reason) ==> d.reason == ActiveGame && wake < e.heartbeatAt + p.staleAfter)
            && (d.reason == UnsupportedActivity ==> WindowWait(e.schedule, now) > 0 ==> wake < now + WindowWait(e.schedule, now))
  {
    var d, wait := DecidePolicy(p, e, now), WindowWait(e.schedule, now);
    RequeueIsPositive(p, e, now);
    RequeueIsLeastBoundary(p, e, now);
    OnlyMissingIsUnset(p, e, now);
    if wait > 0 {
      WaitEndsAtBoundary(e.schedule, now);
    }
    if e.heartbeatAt != ZERO_TIME {
      ExpiryTurns(p, e);
    }
    hide DecidePolicy, WindowWait, HoldExpiry, HeartbeatTurns, WindowTurns, Parsed, TaintPolicy.Valid, TaintPolicy.Skew;
  }

  lemma WaitCovers(p: TaintPolicy, e: Enrollment, now: Time, t: Time)
    requires DecidePolicy(p, e, now).reason == UnsupportedActivity ==> WindowWait(e.schedule, now) > 0 ==> t < now + WindowWait(e.schedule, now)
    requires DecidePolicy(p, e, now).reason in {BadSchedule, UnsupportedActivity}
    ensures WithinWait(e.schedule, now, t)
  {
    DecisionFollowsReason(p, e, now);
    hide DecidePolicy, EvaluateSchedule, HoldExpiry, HeartbeatFreshness;
  }

  /** A live game, at any instant before its deadline. */
  lemma GameLooksEarly(p: TaintPolicy, e: Enrollment, now: Time, t: Time)
    requires p.Valid() && DecidePolicy(p, e, now).reason == ActiveGame && now <= t < e.heartbeatAt + p.staleAfter
    ensures DecidePolicy(p, e, t).taint == DecidePolicy(p, e, now).taint && !Surprised(p, e, now, t)
  {
    GameHoldsToDeadline(p, e, now, t);
    DecisionFollowsReason(p, e, now);
    DecisionFollowsReason(p, e, t);
    hide DecidePolicy, OpeningAt, HoldExpiry, HeartbeatFreshness, Settled;
  }

  /** A closed node that no window concerns. */
  lemma ClosedLooksEarly(p: TaintPolicy, e: Enrollment, now: Time, t: Time)
    requires p.Valid() && now <= t
    requires DecidePolicy(p, e, now).reason in {MissingHeartbeat, StaleHeartbeat, UnknownState, StaleState, UnsupportedState}
    ensures DecidePolicy(p, e, t).taint == DecidePolicy(p, e, now).taint && !Surprised(p, e, now, t)
  {
    DecisionFollowsReason(p, e, now);
    DecisionFollowsReason(p, e, t);
    hide DecidePolicy, OpeningAt, HoldExpiry, HeartbeatFreshness, Settled;
    if DecidePolicy(p, e, now).reason in {MissingHeartbeat, StaleHeartbeat} {
      StaleNeverChanges(p, e, now, t);
    } else {
      ClosedStatesStayClosed(p, e, now, t);
    }
  }

  /** An early look finds the taint as it was, except in a surprise. */
  lemma EarlyLookChangesNothing(p: TaintPolicy, e: Enrollment, now: Time)
    requires p.Valid() && Parsed(e.schedule) && ZERO_TIME < now
    requires var d := DecidePolicy(p, e, now); !Due(p, e, d.reason, now + d.requeueAfter)
    ensures var wake := now + DecidePolicy(p, e, now).requeueAfter;
            DecidePolicy(p, e, wake).taint == DecidePolicy(p, e, now).taint <==> !Surprised(p, e, now, wake)
  {
    hide DecidePolicy, Due, HeartbeatTurns, Parsed, Surprised, WithinWait, TaintPolicy.Valid, TaintPolicy.Skew, WindowWait;
    var reason, wake := DecidePolicy(p, e, now).reason, now + DecidePolicy(p, e, now).requeueAfter;
    NotDueLeaves(p, e, now);
    if reason in {MissingHeartbeat, StaleHeartbeat, UnknownState, StaleState, UnsupportedState} {
      ClosedLooksEarly(p, e, now, wake);
    } else if reason == InvalidHeartbeat {
      FutureStaysFuture(p, e, now, wake);
    } else if reason == ActiveGame {
      GameLooksEarly(p, e, now, wake);
    } else {
      assert reason in {BadSchedule, UnsupportedActivity};
      WaitCovers(p, e, now, wake);
      QuietWindowsHold(p, e, now, wake);
    }
  }
}
