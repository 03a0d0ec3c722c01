/** The taint that one enrollment asks for, and when to look again. */
module PolicyDecisions {
  import opened Clock
  import opened Outcomes
  import opened Windows
  import opened Enrollments

  datatype AdmissionReason =
    | FreshIdle
    | ActiveGame
    | ActiveInteractive
    | AvailabilityHold
    | ScheduledGame
    | ScheduledInteractive
    | ScheduledIdle
    | StaleHeartbeat
    | MissingHeartbeat
    | InvalidHeartbeat
    | BadSchedule
    | UnknownState
    | StaleState
    | UnsupportedActivity
    | UnsupportedState

  datatype Decision = Decision(
    taint: Option<Taint>,
    reason: AdmissionReason,
    requeueAfter: Duration,
    scheduled: bool,
    nextWindow: Time,
    nextTransition: Time)

  function MinPositive(a: Duration, b: Duration): Duration {
    if a <= 0 then b
    else if b <= 0 || a < b then a
    else b
  }

  /** The earliest candidate after now, where the zero time is no candidate. */
  function EarliestTransition(now: Time, candidates: seq<Time>): Time {
    if candidates == [] then ZERO_TIME
    else
      var last := candidates[|candidates| - 1];
      var best := EarliestTransition(now, candidates[..|candidates| - 1]);
      if last == ZERO_TIME || last <= now then best
      else if best == ZERO_TIME || last < best then last
      else best
  }

  function EvaluateSchedule(schedule: ParsedSchedule, now: Time): Result<Evaluation, WindowError> {
    if schedule.InvalidSchedule? then Err(InvalidFields)
    else Evaluate(schedule.windows, now, schedule.lead)
  }

  function DecidePolicy(p: TaintPolicy, e: Enrollment, now: Time): Decision {
    var evaluated := EvaluateSchedule(e.schedule, now);
    var window := if evaluated.Ok? then evaluated.value.active else None;
    var nextWindow := if evaluated.Ok? then evaluated.value.next else ZERO_TIME;
    var windowWait := if evaluated.Ok? then evaluated.value.wait else 0;
    var windowBoundary := if windowWait > 0 then now + windowWait else ZERO_TIME;
    var verdict := p.Freshness(e.heartbeatAt, now);
    if !verdict.Fresh? then
      var plausibleAt := e.heartbeatAt - p.Skew();
      var delay := if verdict.Future? then MinPositive(plausibleAt - now, p.staleAfter) else p.staleAfter;
      Decision(p.FailClosedTaint(),
               if verdict.Missing? then MissingHeartbeat
               else if verdict.Future? then InvalidHeartbeat
               else StaleHeartbeat,
               MinPositive(delay, windowWait), false, nextWindow,
               if verdict.Future? then EarliestTransition(now, [plausibleAt]) else ZERO_TIME)
    else
      var deadline := e.heartbeatAt + p.staleAfter;
      var remaining := if deadline - now <= 0 then SECOND else deadline - now;
      var holdUntil := HoldExpiry(e.hold);
      match e.state
      case Idle =>
        if holdUntil > now then
          Held(p, now, remaining, holdUntil, deadline, nextWindow)
        else if window.Some? then
          Decision(
            match window.value.state
            case Game => Some(p.ActiveTaint())
            case Interactive => Some(p.InteractiveTaint())
            case IdleAllowed => None,
            match window.value.state
            case Game => ScheduledGame
            case Interactive => ScheduledInteractive
            case IdleAllowed => ScheduledIdle,
            MinPositive(remaining, windowWait), true, nextWindow,
            EarliestTransition(now, [deadline, windowBoundary]))
        else if evaluated.Err? then
          Decision(p.FailClosedTaint(), BadSchedule, MinPositive(p.staleAfter, windowWait), false, nextWindow,
                   if p.FailClosedTaint().None? then EarliestTransition(now, [deadline]) else ZERO_TIME)
        else
          Decision(None, FreshIdle, MinPositive(remaining, windowWait), false, nextWindow,
                   EarliestTransition(now, [deadline, windowBoundary]))
      case Active =>
        if e.activity == GameActivity then
          Decision(Some(p.ActiveTaint()), ActiveGame, MinPositive(remaining, windowWait), false, nextWindow,
                   EarliestTransition(now, [deadline]))
        else if holdUntil > now then
          Held(p, now, remaining, holdUntil, deadline, nextWindow)
        else if window.Some? && window.value.state == Game then
          Decision(Some(p.ActiveTaint()), ScheduledGame, MinPositive(remaining, windowWait), true, nextWindow,
                   EarliestTransition(now, [deadline, windowBoundary]))
        else if window.Some? && window.value.state == IdleAllowed then
          Decision(None, ScheduledIdle, MinPositive(remaining, windowWait), true, nextWindow,
                   EarliestTransition(now, [deadline, windowBoundary]))
        else if e.activity == InteractiveActivity then
          Decision(Some(p.InteractiveTaint()), ActiveInteractive, MinPositive(remaining, windowWait), false, nextWindow,
                   EarliestTransition(now, [deadline, windowBoundary]))
        else
          Closed(p, UnsupportedActivity, windowWait, nextWindow)
      case Unknown => Closed(p, UnknownState, windowWait, nextWindow)
      case Stale => Closed(p, StaleState, windowWait, nextWindow)
      case OtherState(_) => Closed(p, UnsupportedState, windowWait, nextWindow)
  }

  function Held(
    p: TaintPolicy, now: Time, remaining: Duration, holdUntil: Time, deadline: Time, nextWindow: Time): Decision {
    Decision(Some(p.InteractiveTaint()), AvailabilityHold, MinPositive(remaining, holdUntil - now), false, nextWindow,
             EarliestTransition(now, [deadline, holdUntil]))
  }

  function Closed(p: TaintPolicy, reason: AdmissionReason, windowWait: Duration, nextWindow: Time): Decision {
    Decision(p.FailClosedTaint(), reason, MinPositive(p.staleAfter, windowWait), false, nextWindow, ZERO_TIME)
  }
}
