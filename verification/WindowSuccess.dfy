/** Exactly when a scan answers: Next never runs dry, and not too many occurrences are walked. */
module WindowSuccess {
  import opened Clock
  import opened Outcomes
  import opened Windows
  import opened WindowLaws

  /** The starts after one instant and up to another. */
  ghost function Starts(w: ParsedWindow, from: Time, to: Time): set<Time> {
    set t | from < t <= to && Occurs(w, t)
  }

  /** Next finds something at an instant and at every start from there on. */
  ghost predicate Continues(w: ParsedWindow, from: Time, to: Time) {
    w.next(from) != ZERO_TIME && forall t | from < t <= to && Occurs(w, t) :: w.next(t) != ZERO_TIME
  }

  /** What a scan at now needs of its window. */
  ghost predicate Answers(w: ParsedWindow, now: Time, lead: Duration) {
    && Continues(w, now - w.duration, now)
    && |Starts(w, now - w.duration, now)| <= MAX_WINDOW_OCCURRENCES
    && (lead > 0 ==> w.next(now + lead) != ZERO_TIME)
  }

  lemma NoStarts(w: ParsedWindow, from: Time, to: Time)
    requires ValidWindow(w) && w.next(from) != ZERO_TIME && to < w.next(from)
    ensures Starts(w, from, to) == {} && Continues(w, from, to)
  {
    forall t | from < t <= to
      ensures !Occurs(w, t)
    {
      if Occurs(w, t) {
        NextIsLeast(w, from, t);
      }
    }
    hide LeastElement, Occurs;
  }

  lemma FirstStart(w: ParsedWindow, from: Time, to: Time)
    requires ValidWindow(w) && w.next(from) != ZERO_TIME && w.next(from) <= to
    ensures from < w.next(from)
    ensures Starts(w, from, to) == {w.next(from)} + Starts(w, w.next(from), to)
    ensures |Starts(w, from, to)| == 1 + |Starts(w, w.next(from), to)|
    ensures Continues(w, from, to) <==> Continues(w, w.next(from), to)
  {
    var start := w.next(from);
    NextOccurs(w, from);
    forall t | from < t <= to && Occurs(w, t)
      ensures start <= t
    {
      NextIsLeast(w, from, t);
    }
    hide LeastElement, Occurs;
    assert start !in Starts(w, start, to);
    assert Starts(w, from, to) == {start} + Starts(w, start, to);
  }

  /** What a walk has found once it passed a start. */
  function Passed(w: ParsedWindow, now: Time, start: Time, active: Option<ScheduledWindow>): Option<ScheduledWindow> {
    if now < start + w.duration then PreferOpenWindow(active, Some(ScheduledWindow(w.state, start, start + w.duration)))
    else active
  }

  function PassedWake(w: ParsedWindow, now: Time, start: Time, wake: Time): Time {
    if now < start + w.duration then EarlierTime(wake, start + w.duration) else wake
  }

  lemma WalkUnfolds(
    w: ParsedWindow, now: Time, cursor: Time, steps: nat, active: Option<ScheduledWindow>, wake: Time)
    ensures var start, r := w.next(cursor), ScanFrom(w, now, cursor, steps, active, wake);
            && (start == ZERO_TIME ==> r == Err(NoOccurrence))
            && (start != ZERO_TIME && cursor < start ==>
                  && (now < start ==> r.Ok?)
                  && (start <= now && steps + 1 > MAX_WINDOW_OCCURRENCES ==> r == Err(TooManyOccurrences))
                  && (start <= now && steps + 1 <= MAX_WINDOW_OCCURRENCES ==>
                        r == ScanFrom(w, now, start, steps + 1, Passed(w, now, start, active), PassedWake(w, now, start, wake))))
  {
    hide PreferOpenWindow, EarlierTime;
  }

  /** What a walk from a cursor comes to, after some steps. */
  ghost predicate WalkMeans(w: ParsedWindow, now: Time, cursor: Time, steps: nat, r: Result<Scan, WindowError>) {
    var starts := |Starts(w, cursor, now)|;
    && (r.Ok? <==> Continues(w, cursor, now) && steps + starts <= MAX_WINDOW_OCCURRENCES)
    && (r == Err(TooManyOccurrences) ==> steps + starts > MAX_WINDOW_OCCURRENCES)
    && (r == Err(NoOccurrence) ==> !Continues(w, cursor, now))
  }

  lemma WalkEnds(w: ParsedWindow, now: Time, cursor: Time, steps: nat, r: Result<Scan, WindowError>)
    requires ValidWindow(w) && steps <= MAX_WINDOW_OCCURRENCES
    requires if w.next(cursor) == ZERO_TIME then r == Err(NoOccurrence) else now < w.next(cursor) && r.Ok?
    ensures WalkMeans(w, now, cursor, steps, r)
  {
    if w.next(cursor) == ZERO_TIME {
      assert !Continues(w, cursor, now);
    } else {
      NoStarts(w, cursor, now);
      assert |Starts(w, cursor, now)| == 0;
    }
    hide Continues, Starts, LeastElement;
  }

  lemma WalkGoesOn(w: ParsedWindow, now: Time, cursor: Time, steps: nat, r: Result<Scan, WindowError>)
    requires ValidWindow(w) && w.next(cursor) != ZERO_TIME && w.next(cursor) <= now && steps <= MAX_WINDOW_OCCURRENCES
    requires if steps + 1 <= MAX_WINDOW_OCCURRENCES then WalkMeans(w, now, w.next(cursor), steps + 1, r)
             else r == Err(TooManyOccurrences)
    ensures WalkMeans(w, now, cursor, steps, r)
  {
    FirstStart(w, cursor, now);
    hide Continues, Starts, LeastElement;
  }

  lemma {:induction false} WalkIsMeant(
    w: ParsedWindow, now: Time, cursor: Time, steps: nat, active: Option<ScheduledWindow>, wake: Time)
    requires ValidWindow(w) && cursor <= now && steps <= MAX_WINDOW_OCCURRENCES
    ensures WalkMeans(w, now, cursor, steps, ScanFrom(w, now, cursor, steps, active, wake))
    decreases now - cursor
  {
    var start, r := w.next(cursor), ScanFrom(w, now, cursor, steps, active, wake);
    WalkUnfolds(w, now, cursor, steps, active, wake);
    hide ScanFrom, WalkMeans, LeastElement, Passed, PassedWake, Occurs;
    if start != ZERO_TIME {
      NextOccurs(w, cursor);
    }
    if start == ZERO_TIME || now < start {
      WalkEnds(w, now, cursor, steps, r);
    } else {
      if steps + 1 <= MAX_WINDOW_OCCURRENCES {
        WalkIsMeant(w, now, start, steps + 1, Passed(w, now, start, active), PassedWake(w, now, start, wake));
      }
      WalkGoesOn(w, now, cursor, steps, r);
    }
  }

  /** A scan answers exactly if its window does, and its error says which part is missing. */
  lemma ScanSucceedsIff(w: ParsedWindow, now: Time, lead: Duration)
    requires ValidWindow(w) && ZERO_TIME < now && lead >= 0
    ensures var r := ScanOf(w, now, lead);
            && (r.Ok? <==> Answers(w, now, lead))
            && (r == Err(TooManyOccurrences) ==> |Starts(w, now - w.duration, now)| > MAX_WINDOW_OCCURRENCES)
            && (r == Err(NoOccurrence) ==>
                  !Continues(w, now - w.duration, now) || (lead > 0 && w.next(now + lead) == ZERO_TIME))
  {
    WalkIsMeant(w, now, now - w.duration, 0, None, ZERO_TIME);
    PastScan(w, now);
    hide ScanFrom, Continues, Starts;
    if w.next(now + lead) != ZERO_TIME {
      NextOccurs(w, now + lead);
    }
    hide LeastElement;
  }

  /**
   What a scan is for: it answers exactly if Next never runs dry and few enough occurrences are
   recent, and then returns its earliest open occurrence if any, the next start, and the least boundary.
   */
  lemma ScanIsExact(w: ParsedWindow, now: Time, lead: Duration)
    requires ValidWindow(w) && ZERO_TIME < now && lead >= 0
    ensures var r := ScanOf(w, now, lead);
            && (r.Ok? <==> Answers(w, now, lead))
            && (r.Ok? ==> ActiveMeans(w, now, lead, r.value.active)
                          && UpcomingMeans(w, now, r.value.upcoming)
                          && WakeMeans(w, now, lead, r.value.wake))
  {
    ScanSucceedsIff(w, now, lead);
    hide ScanOf, Answers, LeastElement;
    if ScanOf(w, now, lead).Ok? {
      ScanIsMeant(w, now, lead);
    }
  }
}
