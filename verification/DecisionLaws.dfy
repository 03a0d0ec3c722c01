/** One enrollment's decision holds until the instant at which it asks to look again. */
module DecisionLaws {
  import opened Clock
  import opened Outcomes
  import opened Windows
  import opened WindowEvaluation
  import opened Heartbeats
  import opened Enrollments
  import opened PolicyDecisions

  /** What parsing guarantees of a schedule. */
  ghost predicate Parsed(s: ParsedSchedule) {
    s.Schedule? ==> s.lead >= 0 && ValidWindows(s.windows)
  }

  /**
   The windows can be evaluated at now, or never could because a field is invalid. A schedule with
   a scan that fails only at now is not settled.
   */
  predicate Settled(s: ParsedSchedule, now: Time) {
    s.InvalidSchedule? || EvaluateSchedule(s, now).Ok?
  }

  /** How long a schedule's answer holds: without windows, for ever. */
  predicate WithinWait(s: ParsedSchedule, now: Time, t: Time) {
    EvaluateSchedule(s, now).Ok? && EvaluateSchedule(s, now).value.wait > 0 ==>
      t < now + EvaluateSchedule(s, now).value.wait
  }

  lemma ScheduleIsStable(s: ParsedSchedule, now: Time, t: Time)
    requires Parsed(s) && Settled(s, now) && ZERO_TIME < now <= t && WithinWait(s, now, t)
    ensures var a, b := EvaluateSchedule(s, now), EvaluateSchedule(s, t);
            && a.Ok? == b.Ok?
            && (a.Ok? ==> b.value.active == a.value.active && b.value.next == a.value.next)
            && (a.Ok? ==> a.value.wait >= 0)
  {
    hide Evaluate, StrongestOpen, LeastBoundary, NextStart, ValidWindows;
    if s.Schedule? {
      EvaluationIsMeant(s.windows, now, s.lead);
      EvaluationIsStable(s.windows, now, t, s.lead);
    }
  }

  lemma NotFreshHolds(p: TaintPolicy, e: Enrollment, now: Time, t: Time)
    requires p.Valid() && Parsed(e.schedule)
    requires ZERO_TIME < now <= t && !p.Freshness(e.heartbeatAt, now).Fresh?
    requires t < now + DecidePolicy(p, e, now).requeueAfter
    ensures !p.Freshness(e.heartbeatAt, t).Fresh?
    ensures DecidePolicy(p, e, t).taint == DecidePolicy(p, e, now).taint
  {
    hide EvaluateSchedule, Parsed;
    if e.heartbeatAt != ZERO_TIME {
      FreshnessTimeline(e.heartbeatAt, now, p.staleAfter, p.Skew());
      FreshnessTimeline(e.heartbeatAt, t, p.staleAfter, p.Skew());
      hide HeartbeatFreshness;
    }
  }

  lemma RequeueIsPositive(p: TaintPolicy, e: Enrollment, now: Time)
    requires p.Valid() && ZERO_TIME < now
    ensures DecidePolicy(p, e, now).requeueAfter > 0
  {
    hide EvaluateSchedule;
    if e.heartbeatAt != ZERO_TIME {
      FreshnessTimeline(e.heartbeatAt, now, p.staleAfter, p.Skew());
      hide HeartbeatFreshness;
    }
  }

  /** What the windows say at an instant: a state that is open, nothing open, or no answer. */
  datatype Opening = NoAnswer | NothingOpen | Open(state: WindowState)

  function OpeningAt(s: ParsedSchedule, now: Time): Opening {
    var r := EvaluateSchedule(s, now);
    if r.Err? then NoAnswer
    else if r.value.active.None? then NothingOpen
    else Open(r.value.active.value.state)
  }

  /** Why a fresh enrollment is decided as it is, without the clock. */
  function FreshReason(e: Enrollment, held: bool, opening: Opening): AdmissionReason {
    match e.state
    case Unknown => UnknownState
    case Stale => StaleState
    case OtherState(_) => UnsupportedState
    case Idle =>
      if held then AvailabilityHold
      else if opening == Open(Game) then ScheduledGame
      else if opening == Open(Interactive) then ScheduledInteractive
      else if opening == Open(IdleAllowed) then ScheduledIdle
      else if opening == NoAnswer then BadSchedule
      else FreshIdle
    case Active =>
      if e.activity == GameActivity then ActiveGame
      else if held then AvailabilityHold
      else if opening == Open(Game) then ScheduledGame
      else if opening == Open(IdleAllowed) then ScheduledIdle
      else if e.activity == InteractiveActivity then ActiveInteractive
      else UnsupportedActivity
  }

  /** A taint of the policy's own key, with no time. */
  function Keyed(p: TaintPolicy, value: string, effect: Effect): Option<Taint> {
    Some(Taint(p.key, value, effect, None))
  }

  function TaintFor(p: TaintPolicy, reason: AdmissionReason): Option<Taint> {
    match reason
    case FreshIdle => None
    case ScheduledIdle => None
    case ActiveGame => Keyed(p, p.activeValue, NoSchedule)
    case ScheduledGame => Keyed(p, p.activeValue, NoSchedule)
    case AvailabilityHold => Keyed(p, p.interactiveValue, PreferNoSchedule)
    case ScheduledInteractive => Keyed(p, p.interactiveValue, PreferNoSchedule)
    case ActiveInteractive => Keyed(p, p.interactiveValue, PreferNoSchedule)
    case _ => if p.failClosed then Keyed(p, p.failClosedValue, NoSchedule) else None
  }

  /** Fails closed whatever the windows and the hold say. */
  predicate Closes(reason: AdmissionReason) {
    reason in {StaleHeartbeat, MissingHeartbeat, InvalidHeartbeat, BadSchedule, UnknownState, StaleState,
               UnsupportedActivity, UnsupportedState}
  }

  /** Every decision is a reason fixed by freshness, report, hold and windows, and that reason's taint. */
  lemma DecisionFollowsReason(p: TaintPolicy, e: Enrollment, now: Time)
    ensures var d, v := DecidePolicy(p, e, now), p.Freshness(e.heartbeatAt, now);
            && d.taint == TaintFor(p, d.reason)
            && d.reason == (match v
                            case Missing => MissingHeartbeat
                            case Future(_) => InvalidHeartbeat
                            case Expired(_) => StaleHeartbeat
                            case Fresh(_) => FreshReason(e, HoldExpiry(e.hold) > now, OpeningAt(e.schedule, now)))
            && (d.scheduled <==> d.reason in {ScheduledGame, ScheduledInteractive, ScheduledIdle})
  {
    hide EvaluateSchedule, HeartbeatFreshness, HoldExpiry, MinPositive, EarliestTransition, TaintPolicy.Skew;
  }

  /** A fresh decision asks to look again before whatever it depends on can change. */
  lemma RequeueCoversDependencies(p: TaintPolicy, e: Enrollment, now: Time, t: Time)
    requires p.Valid() && ZERO_TIME < now <= t && p.Freshness(e.heartbeatAt, now).Fresh?
    requires t < now + DecidePolicy(p, e, now).requeueAfter
    ensures var reason := DecidePolicy(p, e, now).reason;
            && (Closes(reason) || t < e.heartbeatAt + p.staleAfter)
            && (reason == AvailabilityHold ==> t < HoldExpiry(e.hold))
            && (reason != AvailabilityHold ==> WithinWait(e.schedule, now, t))
  {
    FreshnessTimeline(e.heartbeatAt, now, p.staleAfter, p.Skew());
    hide HeartbeatFreshness, EvaluateSchedule, HoldExpiry, EarliestTransition;
  }

  lemma OpeningIsStable(s: ParsedSchedule, now: Time, t: Time)
    requires Parsed(s) && Settled(s, now) && ZERO_TIME < now <= t && WithinWait(s, now, t)
    ensures OpeningAt(s, t) == OpeningAt(s, now)
  {
    ScheduleIsStable(s, now, t);
    hide EvaluateSchedule;
  }

  /** Whether windows have a say in a fresh decision. */
  predicate WindowsMatter(e: Enrollment, held: bool) {
    !held && (e.state == Idle || (e.state == Active && e.activity != GameActivity))
  }

  /** The taint of a fresh report that is not held, by the windows alone. */
  function TaintByWindows(p: TaintPolicy, e: Enrollment, opening: Opening): Option<Taint> {
    TaintFor(p, FreshReason(e, false, opening))
  }

  /**
   A change that a decision could not foresee: its schedule had no answer at now, has one at t, and
   what is open then calls for another taint than no answer did.
   */
  predicate Surprised(p: TaintPolicy, e: Enrollment, now: Time, t: Time) {
    && p.Freshness(e.heartbeatAt, now).Fresh? && p.Freshness(e.heartbeatAt, t).Fresh?
    && WindowsMatter(e, HoldExpiry(e.hold) > now)
    && !Settled(e.schedule, now)
    && TaintByWindows(p, e, OpeningAt(e.schedule, t)) != TaintByWindows(p, e, NoAnswer)
  }

  /** What the windows say at t, or what they said at now where they cannot surprise. */
  lemma OpeningHoldsWhereSettled(e: Enrollment, now: Time, t: Time, reason: AdmissionReason)
    requires Parsed(e.schedule) && Settled(e.schedule, now) && ZERO_TIME < now <= t
    requires reason != AvailabilityHold ==> WithinWait(e.schedule, now, t)
    ensures reason != AvailabilityHold ==> OpeningAt(e.schedule, t) == OpeningAt(e.schedule, now)
  {
    hide OpeningAt, Parsed, Settled, WithinWait;
    if reason != AvailabilityHold {
      OpeningIsStable(e.schedule, now, t);
    }
  }

  lemma FreshHolds(p: TaintPolicy, e: Enrollment, now: Time, t: Time)
    requires p.Valid() && Parsed(e.schedule)
    requires ZERO_TIME < now <= t && p.Freshness(e.heartbeatAt, now).Fresh?
    requires t < now + DecidePolicy(p, e, now).requeueAfter
    ensures DecidePolicy(p, e, t).taint == DecidePolicy(p, e, now).taint <==> !Surprised(p, e, now, t)
    ensures Closes(DecidePolicy(p, e, now).reason) || p.Freshness(e.heartbeatAt, t).Fresh?
  {
    var reason := DecidePolicy(p, e, now).reason;
    RequeueCoversDependencies(p, e, now, t);
    FreshnessTimeline(e.heartbeatAt, now, p.staleAfter, p.Skew());
    FreshnessTimeline(e.heartbeatAt, t, p.staleAfter, p.Skew());
    DecisionFollowsReason(p, e, now);
    DecisionFollowsReason(p, e, t);
    assert !Settled(e.schedule, now) ==> OpeningAt(e.schedule, now) == NoAnswer;
    hide HeartbeatFreshness, EvaluateSchedule, Parsed, DecidePolicy, HoldExpiry, OpeningAt, WithinWait, Settled;
    if Settled(e.schedule, now) {
      OpeningHoldsWhereSettled(e, now, t, reason);
    }
  }

  /** Where an enrollment stays fresh, or stays not fresh, through the wait it asks for. */
  predicate FreshnessSettled(p: TaintPolicy, e: Enrollment, now: Time) {
    !p.Freshness(e.heartbeatAt, now).Fresh? || !Closes(DecidePolicy(p, e, now).reason)
  }

  /**
   Until the requeue a decision asks for, the taint it desires changes exactly in a surprise, and
   freshness does not unless the decision already fails closed.
   */
  lemma TaintHoldsUntilRequeue(p: TaintPolicy, e: Enrollment, now: Time, t: Time)
    requires p.Valid() && Parsed(e.schedule)
    requires ZERO_TIME < now <= t < now + DecidePolicy(p, e, now).requeueAfter
    ensures DecidePolicy(p, e, t).taint == DecidePolicy(p, e, now).taint <==> !Surprised(p, e, now, t)
    ensures FreshnessSettled(p, e, now) ==>
              p.Freshness(e.heartbeatAt, t).Fresh? == p.Freshness(e.heartbeatAt, now).Fresh?
  {
    if p.Freshness(e.heartbeatAt, now).Fresh? {
      FreshHolds(p, e, now, t);
    } else {
      NotFreshHolds(p, e, now, t);
    }
    hide DecidePolicy, HeartbeatFreshness, Settled, OpeningAt;
  }

  // --- What a requeue waits for ----------------------------------------------------------

  function WindowWait(s: ParsedSchedule, now: Time): Duration {
    var r := EvaluateSchedule(s, now);
    if r.Ok? then r.value.wait else 0
  }

  /** The instants that a decision for a reason names to look again at. */
  function Boundaries(p: TaintPolicy, e: Enrollment, reason: AdmissionReason, wait: Duration, now: Time): set<Time> {
    (if reason == AvailabilityHold then {HoldExpiry(e.hold)} else if wait > 0 then {now + wait} else {})
    + (if Closes(reason) then {now + p.staleAfter} else {e.heartbeatAt + p.staleAfter})
    + (if reason == InvalidHeartbeat then {e.heartbeatAt - p.Skew()} else {})
  }

  /** How long a decision for a reason waits. */
  function Delay(p: TaintPolicy, e: Enrollment, reason: AdmissionReason, wait: Duration, now: Time): Duration {
    if reason == InvalidHeartbeat then MinPositive(MinPositive(e.heartbeatAt - p.Skew() - now, p.staleAfter), wait)
    else if Closes(reason) then MinPositive(p.staleAfter, wait)
    else MinPositive(e.heartbeatAt + p.staleAfter - now, if reason == AvailabilityHold then HoldExpiry(e.hold) - now else wait)
  }

  /** What lies ahead of now, by the reason. */
  predicate Ahead(p: TaintPolicy, e: Enrollment, reason: AdmissionReason, now: Time) {
    && (reason == InvalidHeartbeat ==> now < e.heartbeatAt - p.Skew())
    && (!Closes(reason) ==> now < e.heartbeatAt + p.staleAfter)
    && (reason == AvailabilityHold ==> now < HoldExpiry(e.hold))
  }

  ghost predicate LeastOf(t: Time, instants: set<Time>) {
    t in instants && forall other | other in instants :: t <= other
  }

  lemma LeastOfTwo(now: Time, a: Duration, b: Duration)
    requires a > 0
    ensures LeastOf(now + MinPositive(a, b), {now + a} + if b > 0 then {now + b} else {})
  {
  }

  lemma DelayIsLeast(p: TaintPolicy, e: Enrollment, reason: AdmissionReason, wait: Duration, now: Time)
    requires p.staleAfter > 0 && Ahead(p, e, reason, now)
    ensures LeastOf(now + Delay(p, e, reason, wait, now), Boundaries(p, e, reason, wait, now))
  {
    if reason == InvalidHeartbeat {
      var plausible := e.heartbeatAt - p.Skew() - now;
      LeastOfTwo(now, plausible, p.staleAfter);
      LeastOfTwo(now, MinPositive(plausible, p.staleAfter), wait);
    } else if Closes(reason) {
      LeastOfTwo(now, p.staleAfter, wait);
    } else {
      LeastOfTwo(now, e.heartbeatAt + p.staleAfter - now, if reason == AvailabilityHold then HoldExpiry(e.hold) - now else wait);
    }
    hide HoldExpiry, Closes, TaintPolicy.Skew;
  }

  lemma ReasonLooksAhead(p: TaintPolicy, e: Enrollment, now: Time)
    requires p.Valid() && ZERO_TIME < now
    ensures Ahead(p, e, DecidePolicy(p, e, now).reason, now)
  {
    DecisionFollowsReason(p, e, now);
    if e.heartbeatAt != ZERO_TIME {
      FreshnessTimeline(e.heartbeatAt, now, p.staleAfter, p.Skew());
      hide HeartbeatFreshness;
    }
    hide DecidePolicy, OpeningAt, HoldExpiry;
  }

  lemma FreshRequeueByReason(p: TaintPolicy, e: Enrollment, now: Time)
    requires p.Freshness(e.heartbeatAt, now).Fresh? && now < e.heartbeatAt + p.staleAfter
    ensures var d := DecidePolicy(p, e, now);
            d.requeueAfter == Delay(p, e, d.reason, WindowWait(e.schedule, now), now)
  {
    hide EvaluateSchedule, HoldExpiry, EarliestTransition, MinPositive, HeartbeatFreshness;
  }

  lemma NotFreshRequeueByReason(p: TaintPolicy, e: Enrollment, now: Time)
    requires !p.Freshness(e.heartbeatAt, now).Fresh?
    ensures var d := DecidePolicy(p, e, now);
            d.requeueAfter == Delay(p, e, d.reason, WindowWait(e.schedule, now), now)
  {
    hide EvaluateSchedule, HoldExpiry, EarliestTransition, MinPositive, HeartbeatFreshness, TaintPolicy.Skew;
  }

  lemma RequeueByReason(p: TaintPolicy, e: Enrollment, now: Time)
    requires p.Valid() && ZERO_TIME < now
    ensures var d := DecidePolicy(p, e, now);
            d.requeueAfter == Delay(p, e, d.reason, WindowWait(e.schedule, now), now)
  {
    if p.Freshness(e.heartbeatAt, now).Fresh? {
      FreshnessTimeline(e.heartbeatAt, now, p.staleAfter, p.Skew());
      hide HeartbeatFreshness;
      FreshRequeueByReason(p, e, now);
    } else {
      NotFreshRequeueByReason(p, e, now);
    }
    hide DecidePolicy, WindowWait, Delay;
  }

  /** A decision looks again at the least of the instants it names. */
  lemma RequeueIsLeastBoundary(p: TaintPolicy, e: Enrollment, now: Time)
    requires p.Valid() && ZERO_TIME < now
    ensures var d := DecidePolicy(p, e, now);
            LeastOf(now + d.requeueAfter, Boundaries(p, e, d.reason, WindowWait(e.schedule, now), now))
  {
    RequeueByReason(p, e, now);
    ReasonLooksAhead(p, e, now);
    DelayIsLeast(p, e, DecidePolicy(p, e, now).reason, WindowWait(e.schedule, now), now);
    hide DecidePolicy, Delay, Boundaries, Ahead, LeastOf, WindowWait;
  }

  // --- The transition reported to users -----------------------------------------------

  lemma EarliestOfTwo(now: Time, a: Time, b: Time)
    ensures var first := EarliestTransition(now, [a, b]);
            && (first == ZERO_TIME <==> (a == ZERO_TIME || a <= now) && (b == ZERO_TIME || b <= now))
            && (first != ZERO_TIME ==> now < first && (first == a || first == b))
            && (a != ZERO_TIME && now < a ==> first <= a)
            && (b != ZERO_TIME && now < b ==> first <= b)
  {
    assert [a, b][..1] == [a] && [a][..0] == [];
    assert EarliestTransition(now, [a]) == if a == ZERO_TIME || a <= now then ZERO_TIME else a;
  }

  /** What a fresh decision that does not fail closed reports, by its reason. */
  lemma TransitionByReason(p: TaintPolicy, e: Enrollment, now: Time)
    requires p.Freshness(e.heartbeatAt, now).Fresh? && !Closes(DecidePolicy(p, e, now).reason)
    ensures var d, wait, deadline := DecidePolicy(p, e, now), WindowWait(e.schedule, now), e.heartbeatAt + p.staleAfter;
            d.nextTransition == EarliestTransition(now,
              if d.reason == ActiveGame then [deadline]
              else if d.reason == AvailabilityHold then [deadline, HoldExpiry(e.hold)]
              else [deadline, if wait > 0 then now + wait else ZERO_TIME])
  {
    hide EvaluateSchedule, HeartbeatFreshness, HoldExpiry, EarliestTransition, MinPositive;
  }

  /** The reported transition is the instant of the requeue, except that a live game ignores windows. */
  lemma TransitionIsRequeue(p: TaintPolicy, e: Enrollment, now: Time)
    requires p.Valid() && ZERO_TIME < now
    requires p.Freshness(e.heartbeatAt, now).Fresh? && !Closes(DecidePolicy(p, e, now).reason)
    ensures var d := DecidePolicy(p, e, now);
            d.nextTransition == if d.reason == ActiveGame then e.heartbeatAt + p.staleAfter else now + d.requeueAfter
  {
    TransitionByReason(p, e, now);
    RequeueByReason(p, e, now);
    ReasonLooksAhead(p, e, now);
    var deadline, wait := e.heartbeatAt + p.staleAfter, WindowWait(e.schedule, now);
    assert EarliestTransition(now, [deadline]) == deadline;
    EarliestOfTwo(now, deadline, if wait > 0 then now + wait else ZERO_TIME);
    EarliestOfTwo(now, deadline, HoldExpiry(e.hold));
    hide DecidePolicy, HeartbeatFreshness, WindowWait, HoldExpiry, EarliestTransition, Closes;
  }

  /** Before the reported transition, or for ever if none is reported. */
  predicate BeforeTransition(transition: Time, now: Time, t: Time) {
    now <= t && (transition != ZERO_TIME ==> t < transition)
  }

  lemma TransitionCoversDependencies(p: TaintPolicy, e: Enrollment, now: Time, t: Time)
    requires p.Valid() && ZERO_TIME < now && p.Freshness(e.heartbeatAt, now).Fresh?
    requires ZERO_TIME < e.heartbeatAt + p.staleAfter
    requires BeforeTransition(DecidePolicy(p, e, now).nextTransition, now, t)
    ensures var reason := DecidePolicy(p, e, now).reason;
            && (Closes(reason) || t < e.heartbeatAt + p.staleAfter)
            && (reason == AvailabilityHold ==> t < HoldExpiry(e.hold))
            && (!Closes(reason) && reason != AvailabilityHold && reason != ActiveGame ==> WithinWait(e.schedule, now, t))
  {
    FreshnessTimeline(e.heartbeatAt, now, p.staleAfter, p.Skew());
    var deadline := e.heartbeatAt + p.staleAfter;
    var r := EvaluateSchedule(e.schedule, now);
    var wait := if r.Ok? then r.value.wait else 0;
    EarliestOfTwo(now, deadline, if wait > 0 then now + wait else ZERO_TIME);
    EarliestOfTwo(now, deadline, HoldExpiry(e.hold));
    assert EarliestTransition(now, [deadline]) == deadline;
    hide HeartbeatFreshness, EvaluateSchedule, HoldExpiry, EarliestTransition, MinPositive;
  }

  /**
   A change that no transition announced: the windows had no answer, or the report is active with an
   activity the policy does not know, and what is open at t calls for another taint.
   */
  predicate Missed(p: TaintPolicy, e: Enrollment, now: Time, t: Time) {
    && p.Freshness(e.heartbeatAt, now).Fresh? && p.Freshness(e.heartbeatAt, t).Fresh?
    && WindowsMatter(e, HoldExpiry(e.hold) > now)
    && (!Settled(e.schedule, now) || DecidePolicy(p, e, now).reason == UnsupportedActivity)
    && TaintByWindows(p, e, OpeningAt(e.schedule, t)) != DecidePolicy(p, e, now).taint
  }

  lemma FreshHoldsUntilTransition(p: TaintPolicy, e: Enrollment, now: Time, t: Time)
    requires p.Valid() && Parsed(e.schedule) && ZERO_TIME < now
    requires p.Freshness(e.heartbeatAt, now).Fresh? && ZERO_TIME < e.heartbeatAt + p.staleAfter
    requires BeforeTransition(DecidePolicy(p, e, now).nextTransition, now, t)
    ensures DecidePolicy(p, e, t).taint == DecidePolicy(p, e, now).taint <==> !Missed(p, e, now, t)
  {
    var reason := DecidePolicy(p, e, now).reason;
    TransitionCoversDependencies(p, e, now, t);
    FreshnessTimeline(e.heartbeatAt, now, p.staleAfter, p.Skew());
    FreshnessTimeline(e.heartbeatAt, t, p.staleAfter, p.Skew());
    DecisionFollowsReason(p, e, now);
    DecisionFollowsReason(p, e, t);
    assert e.schedule.InvalidSchedule? ==> OpeningAt(e.schedule, t) == OpeningAt(e.schedule, now) == NoAnswer;
    assert !Settled(e.schedule, now) ==> OpeningAt(e.schedule, now) == NoAnswer;
    assert Settled(e.schedule, now) ==> (OpeningAt(e.schedule, now) == NoAnswer ==> e.schedule.InvalidSchedule?);
    hide HeartbeatFreshness, EvaluateSchedule, Parsed, DecidePolicy, HoldExpiry, WithinWait, BeforeTransition, OpeningAt, Settled;
    if Settled(e.schedule, now) && !Closes(reason) && reason != ActiveGame {
      OpeningHoldsWhereSettled(e, now, t, reason);
    }
  }

  lemma NotFreshHoldsUntilTransition(p: TaintPolicy, e: Enrollment, now: Time, t: Time)
    requires p.Valid() && ZERO_TIME < now && !p.Freshness(e.heartbeatAt, now).Fresh?
    requires e.heartbeatAt == ZERO_TIME || p.Skew() < e.heartbeatAt
    requires BeforeTransition(DecidePolicy(p, e, now).nextTransition, now, t)
    ensures DecidePolicy(p, e, t).taint == DecidePolicy(p, e, now).taint
  {
    hide EvaluateSchedule;
    if e.heartbeatAt != ZERO_TIME {
      FreshnessTimeline(e.heartbeatAt, now, p.staleAfter, p.Skew());
      FreshnessTimeline(e.heartbeatAt, t, p.staleAfter, p.Skew());
      assert EarliestTransition(now, [e.heartbeatAt - p.Skew()]) ==
             if e.heartbeatAt - p.Skew() <= now then ZERO_TIME else e.heartbeatAt - p.Skew();
      hide HeartbeatFreshness, EarliestTransition;
    }
  }

  /**
   Until the transition of a decision, or for ever when it has none, the taint of its enrollment
   changes exactly where the decision misses it.
   */
  lemma TransitionIsNotMissed(p: TaintPolicy, e: Enrollment, now: Time, t: Time)
    requires p.Valid() && Parsed(e.schedule) && ZERO_TIME < now
    requires e.heartbeatAt == ZERO_TIME || p.Skew() < e.heartbeatAt
    requires BeforeTransition(DecidePolicy(p, e, now).nextTransition, now, t)
    ensures DecidePolicy(p, e, t).taint == DecidePolicy(p, e, now).taint <==> !Missed(p, e, now, t)
  {
    if p.Freshness(e.heartbeatAt, now).Fresh? {
      FreshHoldsUntilTransition(p, e, now, t);
    } else {
      NotFreshHoldsUntilTransition(p, e, now, t);
    }
    hide DecidePolicy, HeartbeatFreshness, Parsed, BeforeTransition, OpeningAt, Settled;
  }
}
