/** Which schedules can surprise a decision, and which never do. */
module Surprises {
  import opened Clock
  import opened Products
  import opened Outcomes
  import opened Windows
  import opened WindowLaws
  import opened WindowSuccess
  import opened WindowSpacing
  import opened WindowEvaluation
  import opened Heartbeats
  import opened Enrollments
  import opened PolicyDecisions
  import opened DecisionLaws

  /** A parsed schedule is settled exactly if each of its windows answers. */
  lemma SettledIffAllAnswer(s: ParsedSchedule, now: Time)
    requires Parsed(s) && ZERO_TIME < now
    ensures Settled(s, now) <==> s.InvalidSchedule? || AllAnswer(s.windows, |s.windows|, now, s.lead)
  {
    hide Evaluate, AllAnswer, StrongestOpen, LeastBoundary, NextStart, ValidWindows;
    if s.Schedule? {
      EvaluationIsMeant(s.windows, now, s.lead);
    }
  }

  /** Starts never run dry, and lie far enough apart for the duration. */
  ghost predicate WellSpaced(w: ParsedWindow) {
    Endless(w) && exists gap :: Spaced(w, gap) && w.duration <= MAX_WINDOW_OCCURRENCES * gap
  }

  /** A well-spaced schedule can be evaluated at every instant, so it never surprises. */
  lemma WellSpacedNeverSurprises(p: TaintPolicy, e: Enrollment, now: Time, t: Time)
    requires Parsed(e.schedule) && ZERO_TIME < now
    requires e.schedule.Schedule? ==> forall w | w in e.schedule.windows :: WellSpaced(w)
    ensures Settled(e.schedule, now) && !Surprised(p, e, now, t)
  {
    var s := e.schedule;
    SettledIffAllAnswer(s, now);
    if s.Schedule? {
      forall i | 0 <= i < |s.windows|
        ensures Answers(s.windows[i], now, s.lead)
      {
        var w := s.windows[i];
        assert w in s.windows && ValidWindow(w);
        var gap :| Spaced(w, gap) && w.duration <= MAX_WINDOW_OCCURRENCES * gap;
        hide Spaced, ValidWindow, Answers;
        SpacedWindowAnswers(w, gap, now, s.lead);
      }
    }
    hide Settled, WellSpaced, Answers;
  }

  // --- A schedule that surprises -------------------------------------------------------

  /** One game window of a duration, every period. */
  function EverySchedule(period: Duration, phase: Time, duration: Duration): ParsedSchedule
    requires period >= 1
  {
    Schedule(0, [EveryWindow(Game, period, phase, duration)])
  }

  /** The windows last longer than the limit of periods, but not by a whole one. */
  predicate Overlong(period: Duration, phase: Time, duration: Duration) {
    Periodic(period, phase) && MAX_WINDOW_OCCURRENCES * period < duration < (MAX_WINDOW_OCCURRENCES + 1) * period
  }

  lemma OverlongParses(period: Duration, phase: Time, duration: Duration)
    requires Overlong(period, phase, duration)
    ensures Parsed(EverySchedule(period, phase, duration)) && duration >= 1
  {
    assert duration >= 1 by {
      assert MAX_WINDOW_OCCURRENCES * period >= 0;
    }
    PeriodicAnswersIff(Game, period, phase, duration, phase, 0);
    hide Answers, RecentStarts, Endless, ValidWindow;
  }

  /** It has no answer where a period begins, and one again from a remainder of the duration on. */
  lemma OverlongAnswers(period: Duration, phase: Time, duration: Duration, now: Time)
    requires Overlong(period, phase, duration) && ZERO_TIME < now
    ensures Settled(EverySchedule(period, phase, duration), now) <==> OffsetOf(period, phase, now) >= duration % period
  {
    var s := EverySchedule(period, phase, duration);
    OverlongParses(period, phase, duration);
    SettledIffAllAnswer(s, now);
    assert AllAnswer(s.windows, 1, now, 0) <==> Answers(s.windows[0], now, 0);
    PeriodicAnswersIff(Game, period, phase, duration, now, 0);
    DurationInPeriods(period, duration, MAX_WINDOW_OCCURRENCES);
    hide Settled, Answers, AllAnswer, OffsetOf, Endless, ValidWindow, Parsed;
  }

  /** The last start up to an instant. */
  lemma LastStart(period: Duration, phase: Time, t: Time)
    requires Periodic(period, phase)
    ensures var start := Every(period, phase)(t - period); start <= t < start + period
  {
    var k := PeriodOf(period, phase, t);
    EveryIsNext(period, phase, t - period);
    PeriodIs(period, phase, t, k);
    PeriodIs(period, phase, t - period, k - 1);
    SumTimes(k, -1, period);
    hide Every, PeriodOf;
  }

  /** A window as long as its period is open at every instant. */
  lemma LongWindowIsOpen(period: Duration, phase: Time, duration: Duration, t: Time)
    requires Periodic(period, phase) && period <= duration
    ensures exists start :: OpenAt(EveryWindow(Game, period, phase, duration), 0, t, start)
  {
    var w := EveryWindow(Game, period, phase, duration);
    LastStart(period, phase, t);
    EveryIsNext(period, phase, t - period);
    EveryIsLeastElement(period, phase);
    hide Every, PeriodOf;
    NextOccurs(w, t - period);
    hide LeastElement, Occurs;
    assert OpenAt(w, 0, t, w.next(t - period));
  }

  lemma StrongestOfOne(w: ParsedWindow, t: Time, lead: Duration, active: Option<ScheduledWindow>)
    requires StrongestOpen([w], 1, t, lead, active) && exists start :: OpenAt(w, lead, t, start)
    ensures active.Some? && active.value.state == w.state
  {
    var start :| OpenAt(w, lead, t, start);
    assert OpenAt([w][0], lead, t, start);
    hide OpenAt;
  }

  lemma OverlongIsOpen(period: Duration, phase: Time, duration: Duration, t: Time)
    requires Overlong(period, phase, duration) && ZERO_TIME < t
    requires Settled(EverySchedule(period, phase, duration), t)
    ensures OpeningAt(EverySchedule(period, phase, duration), t) == Open(Game)
  {
    var w := EveryWindow(Game, period, phase, duration);
    OverlongParses(period, phase, duration);
    assert period <= duration;
    LongWindowIsOpen(period, phase, duration, t);
    EvaluationIsMeant([w], t, 0);
    hide Evaluate, OpenAt, StrongestOpen, LeastBoundary, NextStart, AllAnswer, ValidWindows;
    StrongestOfOne(w, t, 0, Evaluate([w], t, 0).value.active);
  }

  /**
   Such a schedule surprises a fresh idle host as often as every period: where a period begins it has
   no answer and the decision waits for staleAfter, yet its window is open again a remainder later.
   */
  lemma OverlongScheduleSurprises(
    p: TaintPolicy, e: Enrollment, period: Duration, phase: Time, duration: Duration, now: Time)
    requires p.Valid() && Overlong(period, phase, duration) && ZERO_TIME < now && OffsetOf(period, phase, now) == 0
    requires e.schedule == EverySchedule(period, phase, duration) && e.state == Idle && HoldExpiry(e.hold) <= now
    requires var t := now + duration % period;
             && p.Freshness(e.heartbeatAt, now).Fresh? && p.Freshness(e.heartbeatAt, t).Fresh?
             && t < now + p.staleAfter
    ensures var t := now + duration % period;
            && now < t < now + DecidePolicy(p, e, now).requeueAfter
            && DecidePolicy(p, e, now).taint == p.FailClosedTaint()
            && DecidePolicy(p, e, t).taint == Some(p.ActiveTaint())
            && (Surprised(p, e, now, t) <==> p.FailClosedTaint() != Some(p.ActiveTaint()))
  {
    var t := now + duration % period;
    DurationInPeriods(period, duration, MAX_WINDOW_OCCURRENCES);
    OverlongAnswers(period, phase, duration, now);
    assert OffsetOf(period, phase, t) == duration % period by {
      OffsetAdds(period, phase, now, duration % period);
    }
    OverlongAnswers(period, phase, duration, t);
    OverlongIsOpen(period, phase, duration, t);
    DecisionFollowsReason(p, e, now);
    DecisionFollowsReason(p, e, t);
    RequeueByReason(p, e, now);
    assert !Settled(e.schedule, now) ==> OpeningAt(e.schedule, now) == NoAnswer && WindowWait(e.schedule, now) == 0;
    hide DecidePolicy, OffsetOf, EverySchedule, Settled, OpeningAt, HeartbeatFreshness, HoldExpiry, EvaluateSchedule;
  }

  lemma OffsetAdds(period: Duration, phase: Time, now: Time, d: Duration)
    requires period >= 1 && OffsetOf(period, phase, now) == 0 && 0 <= d < period
    ensures OffsetOf(period, phase, now + d) == d
  {
    var k := (now - phase) / period;
    assert now + d - phase == k * period + d;
    PeriodIs(period, phase, now + d, k);
  }

  // --- One that an operator could write -------------------------------------------------

  const EXAMPLE_POLICY := TaintPolicy("k", "interactive", "active", "closed", "", 5 * MINUTE, 0, true)

  /** Every minute at half past, for 4096 minutes and 30 seconds. */
  const EXAMPLE_SCHEDULE := EverySchedule(MINUTE, 30 * SECOND, 4096 * MINUTE + 30 * SECOND)

  const EXAMPLE := Enrollment(
    "ns", "n", "node", false, EXAMPLE_SCHEDULE, Hold(None, None), Idle, IdleActivity, 10 * MINUTE + 30 * SECOND)

  /** Half a minute after a decision that is to hold for five, the taint is another one. */
  lemma MinutelyScheduleOversleeps()
    ensures var p, now := EXAMPLE_POLICY, 10 * MINUTE + 30 * SECOND;
            && p.Valid() && Parsed(EXAMPLE.schedule)
            && DecidePolicy(p, EXAMPLE, now).requeueAfter == 5 * MINUTE
            && DecidePolicy(p, EXAMPLE, now).taint == p.FailClosedTaint()
            && DecidePolicy(p, EXAMPLE, now + 30 * SECOND).taint == Some(p.ActiveTaint()) != p.FailClosedTaint()
  {
    var now := 10 * MINUTE + 30 * SECOND;
    OverlongParses(MINUTE, 30 * SECOND, 4096 * MINUTE + 30 * SECOND);
    assert OffsetOf(MINUTE, 30 * SECOND, now) == 0;
    assert (4096 * MINUTE + 30 * SECOND) % MINUTE == 30 * SECOND;
    hide EverySchedule, DecidePolicy, OffsetOf;
    OverlongScheduleSurprises(EXAMPLE_POLICY, EXAMPLE, MINUTE, 30 * SECOND, 4096 * MINUTE + 30 * SECOND, now);
    RequeueByReason(EXAMPLE_POLICY, EXAMPLE, now);
  }
}
