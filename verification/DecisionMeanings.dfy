/** Decisions in the terms of the settings, the hold annotations and the windows themselves. */
module DecisionMeanings {
  import opened Clock
  import opened Outcomes
  import opened Windows
  import opened WindowLaws
  import opened WindowEvaluation
  import opened Heartbeats
  import opened Enrollments
  import opened PolicyDecisions
  import opened DecisionLaws

  // --- Heartbeats ------------------------------------------------------------------------

  /** How far ahead a heartbeat may be: as configured, or fifteen seconds. */
  function Tolerance(p: TaintPolicy): Duration {
    if p.heartbeatSkew > 0 then p.heartbeatSkew else 15_000_000_000
  }

  /** A heartbeat is trusted from the tolerance before it until staleAfter after it. */
  lemma HeartbeatIsTrustedIff(p: TaintPolicy, at: Time, now: Time)
    requires p.Valid()
    ensures var v := p.Freshness(at, now);
            && (v.Missing? <==> at == ZERO_TIME)
            && (v.Fresh? <==> at != ZERO_TIME && at - Tolerance(p) <= now < at + p.staleAfter)
            && (v.Future? <==> at != ZERO_TIME && now < at - Tolerance(p))
  {
    if at != ZERO_TIME {
      FreshnessTimeline(at, now, p.staleAfter, p.Skew());
      hide HeartbeatFreshness;
    }
  }

  // --- Holds -----------------------------------------------------------------------------

  /** A hold is in force until its duration after its start. One that is absent, malformed or not positive never is. */
  predicate InForce(h: Hold, now: Time) {
    h.duration.Some? && h.duration.value > 0 && h.start.Some? && now < h.start.value + h.duration.value
  }

  /** A report that a hold can override: idle, or active but not a game. */
  predicate Overridable(e: Enrollment) {
    e.state == Idle || (e.state == Active && e.activity != GameActivity)
  }

  /**
   A hold decides exactly a fresh report that it can override, while it is in force. It asks for the
   interactive taint, and to look again when it ends, or the heartbeat expires if that is sooner.
   */
  lemma HoldDecidesIff(p: TaintPolicy, e: Enrollment, now: Time)
    requires p.Valid() && ZERO_TIME < now
    ensures var d := DecidePolicy(p, e, now);
            && (d.reason == AvailabilityHold <==>
                  p.Freshness(e.heartbeatAt, now).Fresh? && Overridable(e) && InForce(e.hold, now))
            && (d.reason == AvailabilityHold ==>
                  var ends, expires := e.hold.start.value + e.hold.duration.value, e.heartbeatAt + p.staleAfter;
                  && d.taint == Some(Taint(p.key, p.interactiveValue, PreferNoSchedule, None))
                  && now + d.requeueAfter == (if ends < expires then ends else expires)
                  && d.nextTransition == now + d.requeueAfter)
  {
    DecisionFollowsReason(p, e, now);
    HoldExpiryIsEnd(e.hold, now);
    if DecidePolicy(p, e, now).reason == AvailabilityHold {
      RequeueByReason(p, e, now);
      TransitionIsRequeue(p, e, now);
      ReasonLooksAhead(p, e, now);
    }
    hide DecidePolicy, HeartbeatFreshness, OpeningAt, HoldExpiry, InForce, WindowWait;
  }

  lemma HoldExpiryIsEnd(h: Hold, now: Time)
    requires ZERO_TIME < now
    ensures HoldExpiry(h) > now <==> InForce(h, now)
    ensures InForce(h, now) ==> HoldExpiry(h) == h.start.value + h.duration.value
  {
  }

  // --- Windows ---------------------------------------------------------------------------

  /** Some window of a state is open, or in its lead time. */
  ghost predicate SomeOpen(s: ParsedSchedule, now: Time, state: WindowState) {
    s.Schedule? && exists i, t :: 0 <= i < |s.windows| && s.windows[i].state == state && OpenAt(s.windows[i], s.lead, now, t)
  }

  /** Where the windows answer, a game window wins over an interactive one, and that over an idle-allowed one. */
  lemma OpeningIsStrongest(s: ParsedSchedule, now: Time)
    requires Parsed(s) && ZERO_TIME < now && EvaluateSchedule(s, now).Ok?
    ensures OpeningAt(s, now) == (if SomeOpen(s, now, Game) then Open(Game)
                                  else if SomeOpen(s, now, Interactive) then Open(Interactive)
                                  else if SomeOpen(s, now, IdleAllowed) then Open(IdleAllowed)
                                  else NothingOpen)
  {
    EvaluationIsMeant(s.windows, now, s.lead);
    hide Evaluate, NextStart, LeastBoundary, AllAnswer, ValidWindows, OpenAt;
    var active := EvaluateSchedule(s, now).value.active;
    if active.Some? {
      var i :| 0 <= i < |s.windows| && active.value == Occurrence(s.windows[i], active.value.start)
               && OpenAt(s.windows[i], s.lead, now, active.value.start);
      assert SomeOpen(s, now, active.value.state);
      StrongerIsNotOpen(s, now, active.value);
    }
  }

  lemma StrongerIsNotOpen(s: ParsedSchedule, now: Time, active: ScheduledWindow)
    requires s.Schedule? && StrongestOpen(s.windows, |s.windows|, now, s.lead, Some(active))
    ensures forall state | Stronger(state, active.state) :: !SomeOpen(s, now, state)
  {
    hide OpenAt;
    forall i, t | 0 <= i < |s.windows| && OpenAt(s.windows[i], s.lead, now, t)
      ensures !Stronger(s.windows[i].state, active.state)
    {
      assert NoWeaker(active, Occurrence(s.windows[i], t));
    }
  }

  /** What open windows make of a fresh report that no hold is in force for. */
  lemma WindowsDecide(p: TaintPolicy, e: Enrollment, now: Time)
    requires p.Valid() && Parsed(e.schedule) && ZERO_TIME < now && EvaluateSchedule(e.schedule, now).Ok?
    requires p.Freshness(e.heartbeatAt, now).Fresh? && Overridable(e) && !InForce(e.hold, now)
    ensures var d, s := DecidePolicy(p, e, now), e.schedule;
            && (d.reason == ScheduledGame <==> SomeOpen(s, now, Game))
            && (d.reason == ScheduledInteractive <==>
                  e.state == Idle && SomeOpen(s, now, Interactive) && !SomeOpen(s, now, Game))
            && (d.reason == ScheduledIdle <==>
                  SomeOpen(s, now, IdleAllowed) && !SomeOpen(s, now, Interactive) && !SomeOpen(s, now, Game))
            && (SomeOpen(s, now, Game) ==> d.taint == Some(Taint(p.key, p.activeValue, NoSchedule, None)))
  {
    OpeningIsStrongest(e.schedule, now);
    DecisionFollowsReason(p, e, now);
    HoldExpiryIsEnd(e.hold, now);
    hide DecidePolicy, HeartbeatFreshness, OpeningAt, HoldExpiry, InForce, SomeOpen, EvaluateSchedule, Parsed;
  }

  /** Every decision names the next start of any window, if the windows answer and there are any. */
  lemma NextWindowIsNextStart(p: TaintPolicy, e: Enrollment, now: Time)
    requires Parsed(e.schedule) && ZERO_TIME < now
    ensures var next := DecidePolicy(p, e, now).nextWindow;
            if EvaluateSchedule(e.schedule, now).Ok? && e.schedule.windows != []
            then NextStart(e.schedule.windows, |e.schedule.windows|, now, next)
            else next == ZERO_TIME
  {
    if e.schedule.Schedule? {
      EvaluationIsMeant(e.schedule.windows, now, e.schedule.lead);
    }
    NextWindowIsEvaluated(p, e, now);
    hide DecidePolicy, Evaluate, StrongestOpen, LeastBoundary, NextStart, AllAnswer, ValidWindows;
  }

  lemma NextWindowIsEvaluated(p: TaintPolicy, e: Enrollment, now: Time)
    ensures var r := EvaluateSchedule(e.schedule, now);
            DecidePolicy(p, e, now).nextWindow == if r.Ok? then r.value.next else ZERO_TIME
  {
    hide EvaluateSchedule, HeartbeatFreshness, HoldExpiry, MinPositive, EarliestTransition, TaintPolicy.Skew;
  }

  // --- Transitions of closed nodes -------------------------------------------------------

  /**
   A decision that fails closed reports a transition in two cases: a heartbeat that is too far ahead becomes
   plausible, and an invalid schedule, where that keeps no taint, is admitted until its heartbeat expires.
   */
  lemma ClosedTransitionIsMeant(p: TaintPolicy, e: Enrollment, now: Time)
    requires p.Valid() && ZERO_TIME < now && Closes(DecidePolicy(p, e, now).reason)
    ensures var d := DecidePolicy(p, e, now);
            d.nextTransition == (if d.reason == InvalidHeartbeat then e.heartbeatAt - Tolerance(p)
                                 else if d.reason == BadSchedule && !p.failClosed then e.heartbeatAt + p.staleAfter
                                 else ZERO_TIME)
  {
    EarliestOfOne(now, e.heartbeatAt - p.Skew());
    EarliestOfOne(now, e.heartbeatAt + p.staleAfter);
    HeartbeatIsTrustedIff(p, e.heartbeatAt, now);
    hide EvaluateSchedule, HeartbeatFreshness, HoldExpiry, MinPositive, EarliestTransition;
  }

  lemma EarliestOfOne(now: Time, a: Time)
    ensures EarliestTransition(now, [a]) == if a == ZERO_TIME || a <= now then ZERO_TIME else a
  {
    assert [a][..0] == [];
  }
}
