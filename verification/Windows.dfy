/**
 Availability windows after parsing: the open window, the next start, and the wait until the
 next boundary. A schedule is its Next function, which returns the zero time when no
 occurrence lies within its horizon.
 */
module Windows {
  import opened Clock
  import opened Outcomes

  const MAX_WINDOW_OCCURRENCES: nat := 4096

  datatype WindowState = Game | Interactive | IdleAllowed

  datatype ParsedWindow = ParsedWindow(state: WindowState, next: Time -> Time, duration: Duration)

  datatype ScheduledWindow = ScheduledWindow(state: WindowState, start: Time, end: Time)

  datatype WindowError =
    | InvalidFields
    | NoOccurrence
    | DidNotAdvance
    | TooManyOccurrences
    | LeadDidNotAdvance
    | RequeueDidNotAdvance

  /** What one window contributes: its open occurrence, its next start, and its next boundary. */
  datatype Scan = Scan(active: Option<ScheduledWindow>, upcoming: Time, wake: Time)

  /** What all windows together say. */
  datatype Evaluation = Evaluation(active: Option<ScheduledWindow>, next: Time, wait: Duration)

  function WindowRank(state: WindowState): nat {
    match state
    case Game => 3
    case Interactive => 2
    case IdleAllowed => 1
  }

  function PreferOpenWindow(
    current: Option<ScheduledWindow>, candidate: Option<ScheduledWindow>): Option<ScheduledWindow> {
    if candidate.None? then current
    else if current.None? then candidate
    else
      var rank, best := WindowRank(candidate.value.state), WindowRank(current.value.state);
      if rank > best || (rank == best && candidate.value.end < current.value.end) then candidate else current
  }

  function EarlierTime(current: Time, candidate: Time): Time {
    if candidate == ZERO_TIME then current
    else if current == ZERO_TIME || candidate < current then candidate
    else current
  }

  function NextActivation(next: Time -> Time, after: Time): (r: Result<Time, WindowError>)
    ensures r.Ok? ==> r.value > after
  {
    if next(after) == ZERO_TIME then Err(NoOccurrence)
    else if next(after) <= after then Err(DidNotAdvance)
    else Ok(next(after))
  }

  /** The rest of a scan, from the cursor on. */
  function ScanFrom(
    w: ParsedWindow, now: Time, cursor: Time, steps: nat,
    active: Option<ScheduledWindow>, wake: Time): Result<Scan, WindowError>
    decreases now - cursor
  {
    var activation := NextActivation(w.next, cursor);
    if activation.Err? then Err(activation.error)
    else if activation.value > now then Ok(Scan(active, activation.value, wake))
    else if steps + 1 > MAX_WINDOW_OCCURRENCES then Err(TooManyOccurrences)
    else
      var start, end := activation.value, activation.value + w.duration;
      if now < end then
        ScanFrom(w, now, start, steps + 1,
                 PreferOpenWindow(active, Some(ScheduledWindow(w.state, start, end))), EarlierTime(wake, end))
      else
        ScanFrom(w, now, start, steps + 1, active, wake)
  }

  /** Adds the next start and the lead-time boundary to what the past occurrences gave. */
  function WithLead(w: ParsedWindow, now: Time, lead: Duration, past: Scan): Result<Scan, WindowError> {
    var wake := EarlierTime(past.wake, past.upcoming);
    if lead <= 0 then Ok(past.(wake := wake))
    else
      var anchor := NextActivation(w.next, now + lead);
      if anchor.Err? then Err(anchor.error)
      else if anchor.value - lead <= now then Err(LeadDidNotAdvance)
      else
        var led := ScheduledWindow(w.state, past.upcoming, past.upcoming + w.duration);
        Ok(Scan(
             if past.upcoming - lead <= now < past.upcoming then PreferOpenWindow(past.active, Some(led)) else past.active,
             past.upcoming,
             EarlierTime(wake, anchor.value - lead)))
  }

  function ScanOf(w: ParsedWindow, now: Time, lead: Duration): Result<Scan, WindowError> {
    var past := ScanFrom(w, now, now - w.duration, 0, None, ZERO_TIME);
    if past.Err? then past else WithLead(w, now, lead, past.value)
  }

  method ScanWindow(w: ParsedWindow, now: Time, lead: Duration) returns (r: Result<Scan, WindowError>)
    ensures r == ScanOf(w, now, lead)
  {
    var cursor, steps, wake := now - w.duration, 0, ZERO_TIME;
    var active: Option<ScheduledWindow> := None;
    var upcoming: Time;
    while true
      invariant ScanFrom(w, now, now - w.duration, 0, None, ZERO_TIME) == ScanFrom(w, now, cursor, steps, active, wake)
      decreases now - cursor
    {
      var activation := NextActivation(w.next, cursor);
      if activation.Err? {
        return Err(activation.error);
      }
      var start := activation.value;
      if start > now {
        upcoming := start;
        break;
      }
      steps := steps + 1;
      if steps > MAX_WINDOW_OCCURRENCES {
        return Err(TooManyOccurrences);
      }
      var end := start + w.duration;
      if now < end {
        wake := EarlierTime(wake, end);
        active := PreferOpenWindow(active, Some(ScheduledWindow(w.state, start, end)));
      }
      cursor := start;
    }
    ghost var past := Scan(active, upcoming, wake);
    assert ScanFrom(w, now, now - w.duration, 0, None, ZERO_TIME) == Ok(past);
    wake := EarlierTime(wake, upcoming);
    if lead > 0 {
      var anchor := NextActivation(w.next, now + lead);
      if anchor.Err? {
        return Err(anchor.error);
      }
      var leadBoundary := anchor.value - lead;
      if leadBoundary <= now {
        return Err(LeadDidNotAdvance);
      }
      wake := EarlierTime(wake, leadBoundary);
      if upcoming - lead <= now && now < upcoming {
        active := PreferOpenWindow(active, Some(ScheduledWindow(w.state, upcoming, upcoming + w.duration)));
      }
    }
    return Ok(Scan(active, upcoming, wake));
  }

  /** The windows before k, folded in order: the next start of all of them in place of one. */
  function Fold(windows: seq<ParsedWindow>, k: nat, now: Time, lead: Duration): Result<Scan, WindowError>
    requires k <= |windows|
  {
    if k == 0 then Ok(Scan(None, ZERO_TIME, ZERO_TIME))
    else
      var before := Fold(windows, k - 1, now, lead);
      if before.Err? then before
      else
        var scan := ScanOf(windows[k - 1], now, lead);
        if scan.Err? then scan
        else
          Ok(Scan(
               PreferOpenWindow(before.value.active, scan.value.active),
               if before.value.upcoming == ZERO_TIME || scan.value.upcoming < before.value.upcoming
               then scan.value.upcoming else before.value.upcoming,
               EarlierTime(before.value.wake, scan.value.wake)))
  }

  function Evaluate(windows: seq<ParsedWindow>, now: Time, lead: Duration): Result<Evaluation, WindowError> {
    var all := Fold(windows, |windows|, now, lead);
    if all.Err? then Err(all.error)
    else if all.value.wake == ZERO_TIME then Ok(Evaluation(all.value.active, all.value.upcoming, 0))
    else if all.value.wake - now <= 0 then Err(RequeueDidNotAdvance)
    else Ok(Evaluation(all.value.active, all.value.upcoming, all.value.wake - now))
  }

  lemma FoldStopsAtError(windows: seq<ParsedWindow>, k: nat, now: Time, lead: Duration)
    requires k <= |windows| && Fold(windows, k, now, lead).Err?
    ensures Fold(windows, |windows|, now, lead) == Fold(windows, k, now, lead)
    decreases |windows| - k
  {
    if k < |windows| {
      FoldStopsAtError(windows, k + 1, now, lead);
    }
  }

  method EvaluateWindows(windows: seq<ParsedWindow>, now: Time, lead: Duration)
    returns (r: Result<Evaluation, WindowError>)
    ensures r == Evaluate(windows, now, lead)
  {
    hide ScanOf, PreferOpenWindow, EarlierTime;
    var active: Option<ScheduledWindow> := None;
    var next, wake := ZERO_TIME, ZERO_TIME;
    for i := 0 to |windows|
      invariant Fold(windows, i, now, lead) == Ok(Scan(active, next, wake))
    {
      var scan := ScanWindow(windows[i], now, lead);
      if scan.Err? {
        FoldStopsAtError(windows, i + 1, now, lead);
        return Err(scan.error);
      }
      active := PreferOpenWindow(active, scan.value.active);
      if next == ZERO_TIME || scan.value.upcoming < next {
        next := scan.value.upcoming;
      }
      wake := EarlierTime(wake, scan.value.wake);
    }
    if wake == ZERO_TIME {
      return Ok(Evaluation(active, next, 0));
    }
    var wait := wake - now;
    if wait <= 0 {
      return Err(RequeueDidNotAdvance);
    }
    return Ok(Evaluation(active, next, wait));
  }
}
