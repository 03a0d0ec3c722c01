/**
 What the window scan means over the unbounded set of occurrences, and why its answer holds
 until the instant it names.
 */
module WindowLaws {
  import opened Clock
  import opened Outcomes
  import opened Windows

  /** Next is the least occurrence after an instant, wherever it finds one. */
  ghost predicate LeastElement(next: Time -> Time) {
    && (forall x :: next(x) != ZERO_TIME ==> x < next(x))
    && (forall x, y :: next(x) != ZERO_TIME && x <= y < next(x) ==> next(y) == next(x))
  }

  ghost predicate ValidWindow(w: ParsedWindow) {
    LeastElement(w.next) && w.duration > 0
  }

  ghost predicate Occurs(w: ParsedWindow, t: Time) {
    t != ZERO_TIME && w.next(t - 1) == t
  }

  /** An occurrence is open from its lead time until its end, which is exclusive. */
  ghost predicate OpenAt(w: ParsedWindow, lead: Duration, now: Time, t: Time) {
    Occurs(w, t) && t - lead <= now < t + w.duration
  }

  /** An instant at which some occurrence starts its lead time, starts, or ends. */
  ghost predicate Boundary(w: ParsedWindow, lead: Duration, b: Time) {
    Occurs(w, b + lead) || Occurs(w, b) || Occurs(w, b - w.duration)
  }

  lemma NextOccurs(w: ParsedWindow, x: Time)
    requires LeastElement(w.next) && w.next(x) != ZERO_TIME
    ensures x < w.next(x) && Occurs(w, w.next(x))
  {
    assert w.next(w.next(x) - 1) == w.next(x);
  }

  lemma NextHolds(w: ParsedWindow, x: Time, y: Time)
    requires LeastElement(w.next) && w.next(x) != ZERO_TIME && x <= y < w.next(x)
    ensures w.next(y) == w.next(x)
  {
  }

  lemma NextIsLeast(w: ParsedWindow, x: Time, t: Time)
    requires LeastElement(w.next) && w.next(x) != ZERO_TIME && Occurs(w, t) && x < t
    ensures w.next(x) <= t
  {
    assert t - 1 >= w.next(x) || w.next(t - 1) == w.next(x);
  }

  function Occurrence(w: ParsedWindow, start: Time): ScheduledWindow {
    ScheduledWindow(w.state, start, start + w.duration)
  }

  /** Once the earliest open occurrence is found, the rest of the walk only finds the next start. */
  lemma {:induction false} WalkFinds(w: ParsedWindow, now: Time, cursor: Time, steps: nat, first: Time)
    requires ValidWindow(w) && ZERO_TIME < now && now - w.duration < first <= cursor <= now
    ensures var r := ScanFrom(w, now, cursor, steps, Some(Occurrence(w, first)), first + w.duration);
            if r.Ok? then r.value == Scan(Some(Occurrence(w, first)), w.next(now), first + w.duration) && now < w.next(now)
            else r.error in {NoOccurrence, TooManyOccurrences}
    decreases now - cursor
  {
    var start := w.next(cursor);
    if start != ZERO_TIME {
      NextOccurs(w, cursor);
      if start > now {
        NextHolds(w, cursor, now);
      } else if steps + 1 <= MAX_WINDOW_OCCURRENCES {
        WalkFinds(w, now, start, steps + 1, first);
      }
      hide LeastElement;
    }
  }

  /** The scan in closed form: three calls of Next, and a minimum. */
  function ClosedScan(w: ParsedWindow, now: Time, lead: Duration): Scan {
    var first, upcoming := w.next(now - w.duration), w.next(now);
    var wake := if first <= now && first + w.duration < upcoming then first + w.duration else upcoming;
    var led := w.next(now + lead) - lead;
    Scan(
      if first <= now then Some(Occurrence(w, first))
      else if upcoming - lead <= now then Some(Occurrence(w, upcoming))
      else None,
      upcoming,
      if led < wake then led else wake)
  }

  lemma PastScan(w: ParsedWindow, now: Time)
    requires ValidWindow(w) && ZERO_TIME < now
    ensures var r := ScanFrom(w, now, now - w.duration, 0, None, ZERO_TIME);
            var first := w.next(now - w.duration);
            if r.Err? then r.error in {NoOccurrence, TooManyOccurrences}
            else
              && first != ZERO_TIME
              && now < w.next(now)
              && r.value == (if first <= now then Scan(Some(Occurrence(w, first)), w.next(now), first + w.duration)
                             else Scan(None, w.next(now), ZERO_TIME))
  {
    var first := w.next(now - w.duration);
    if first != ZERO_TIME {
      NextOccurs(w, now - w.duration);
      if first <= now {
        WalkFinds(w, now, first, 1, first);
      } else {
        NextHolds(w, now - w.duration, now);
      }
      hide LeastElement;
    }
  }

  /** The instants of a successful scan: Next finds something at each of the three cursors. */
  ghost predicate Found(w: ParsedWindow, now: Time, lead: Duration) {
    && ZERO_TIME != w.next(now - w.duration)
    && ZERO_TIME != w.next(now)
    && ZERO_TIME != w.next(now + lead)
    && now - w.duration < w.next(now - w.duration)
    && now < w.next(now)
    && now + lead < w.next(now + lead)
  }

  /** A successful scan is the closed form, and only the horizon or the step limit can fail it. */
  lemma ScanIsClosed(w: ParsedWindow, now: Time, lead: Duration)
    requires ValidWindow(w) && ZERO_TIME < now && lead >= 0
    ensures var r := ScanOf(w, now, lead);
            if r.Err? then r.error in {NoOccurrence, TooManyOccurrences}
            else Found(w, now, lead) && r.value == ClosedScan(w, now, lead)
  {
    PastScan(w, now);
    hide ScanFrom;
    var past := ScanFrom(w, now, now - w.duration, 0, None, ZERO_TIME);
    if past.Ok? {
      NextOccurs(w, now - w.duration);
      if w.next(now + lead) != ZERO_TIME {
        NextOccurs(w, now + lead);
      }
      hide LeastElement;
    }
  }

  /** What one scan means, over every occurrence of its window. */
  ghost predicate ActiveMeans(w: ParsedWindow, now: Time, lead: Duration, active: Option<ScheduledWindow>) {
    if active.None? then forall t :: !OpenAt(w, lead, now, t)
    else
      && active.value == Occurrence(w, active.value.start)
      && OpenAt(w, lead, now, active.value.start)
      && forall t | OpenAt(w, lead, now, t) :: active.value.start <= t
  }

  ghost predicate UpcomingMeans(w: ParsedWindow, now: Time, upcoming: Time) {
    Occurs(w, upcoming) && now < upcoming && forall t | Occurs(w, t) && now < t :: upcoming <= t
  }

  ghost predicate WakeMeans(w: ParsedWindow, now: Time, lead: Duration, wake: Time) {
    Boundary(w, lead, wake) && now < wake && forall b | Boundary(w, lead, b) && now < b :: wake <= b
  }

  lemma OpenNotEarlier(w: ParsedWindow, now: Time, lead: Duration, t: Time)
    requires ValidWindow(w) && lead >= 0 && Found(w, now, lead) && OpenAt(w, lead, now, t)
    ensures w.next(now - w.duration) <= t
    ensures now < t ==> w.next(now) <= t
  {
    NextIsLeast(w, now - w.duration, t);
    if now < t {
      NextIsLeast(w, now, t);
    }
    hide LeastElement;
  }

  lemma ActiveIsEarliestOpen(w: ParsedWindow, now: Time, lead: Duration)
    requires ValidWindow(w) && lead >= 0 && Found(w, now, lead)
    ensures ActiveMeans(w, now, lead, ClosedScan(w, now, lead).active)
  {
    NextOccurs(w, now - w.duration);
    NextOccurs(w, now);
    var first, upcoming := w.next(now - w.duration), w.next(now);
    forall t | OpenAt(w, lead, now, t)
      ensures first <= t && (first > now ==> upcoming <= t)
    {
      OpenNotEarlier(w, now, lead, t);
    }
    hide LeastElement;
  }

  lemma BoundaryNotEarlier(w: ParsedWindow, now: Time, lead: Duration, b: Time)
    requires ValidWindow(w) && lead >= 0 && Found(w, now, lead) && Boundary(w, lead, b) && now < b
    ensures ClosedScan(w, now, lead).wake <= b
  {
    if Occurs(w, b + lead) {
      NextIsLeast(w, now + lead, b + lead);
    } else if Occurs(w, b) {
      NextIsLeast(w, now, b);
    } else {
      NextIsLeast(w, now - w.duration, b - w.duration);
      if now < b - w.duration {
        NextIsLeast(w, now, b - w.duration);
      }
    }
    hide LeastElement;
  }

  lemma WakeIsLeastBoundary(w: ParsedWindow, now: Time, lead: Duration)
    requires ValidWindow(w) && lead >= 0 && Found(w, now, lead)
    ensures WakeMeans(w, now, lead, ClosedScan(w, now, lead).wake)
  {
    NextOccurs(w, now - w.duration);
    NextOccurs(w, now);
    NextOccurs(w, now + lead);
    hide LeastElement;
    forall b | Boundary(w, lead, b) && now < b
      ensures ClosedScan(w, now, lead).wake <= b
    {
      BoundaryNotEarlier(w, now, lead, b);
    }
  }

  lemma UpcomingIsNextStart(w: ParsedWindow, now: Time)
    requires ValidWindow(w) && w.next(now) != ZERO_TIME
    ensures UpcomingMeans(w, now, w.next(now))
  {
    NextOccurs(w, now);
    forall t | Occurs(w, t) && now < t
      ensures w.next(now) <= t
    {
      NextIsLeast(w, now, t);
    }
  }

  /** A scan returns its earliest open occurrence if any, the next start, and the least boundary. */
  lemma ScanIsMeant(w: ParsedWindow, now: Time, lead: Duration)
    requires ValidWindow(w) && ZERO_TIME < now && lead >= 0 && ScanOf(w, now, lead).Ok?
    ensures var s := ScanOf(w, now, lead).value;
            && ActiveMeans(w, now, lead, s.active)
            && UpcomingMeans(w, now, s.upcoming)
            && WakeMeans(w, now, lead, s.wake)
  {
    ScanIsClosed(w, now, lead);
    ActiveIsEarliestOpen(w, now, lead);
    WakeIsLeastBoundary(w, now, lead);
    UpcomingIsNextStart(w, now);
    hide ScanOf, LeastElement, ActiveMeans, WakeMeans, UpcomingMeans;
  }

  // --- The answer holds until the boundary -----------------------------------------

  lemma {:induction false} WalkIsStable(
    w: ParsedWindow, now: Time, t: Time, cursor: Time, steps: nat,
    active: Option<ScheduledWindow>, wake: Time)
    requires ValidWindow(w) && now <= t && t - w.duration <= cursor <= now
    requires w.next(now) != ZERO_TIME && t < w.next(now)
    ensures ScanFrom(w, t, cursor, steps, active, wake) == ScanFrom(w, now, cursor, steps, active, wake)
    decreases now - cursor
  {
    var start := w.next(cursor);
    if start != ZERO_TIME {
      NextOccurs(w, cursor);
      if start > now {
        NextHolds(w, cursor, now);
      } else if steps + 1 <= MAX_WINDOW_OCCURRENCES {
        var end := start + w.duration;
        WalkIsStable(w, now, t, start, steps + 1,
                     PreferOpenWindow(active, Some(ScheduledWindow(w.state, start, end))), EarlierTime(wake, end));
      }
      hide LeastElement;
    }
  }

  lemma PastScanIsStable(w: ParsedWindow, now: Time, t: Time)
    requires ValidWindow(w) && ZERO_TIME < now <= t
    requires w.next(now - w.duration) != ZERO_TIME && w.next(now) != ZERO_TIME
    requires t < w.next(now)
    requires w.next(now - w.duration) <= now ==> t < w.next(now - w.duration) + w.duration
    ensures ScanFrom(w, t, t - w.duration, 0, None, ZERO_TIME) == ScanFrom(w, now, now - w.duration, 0, None, ZERO_TIME)
  {
    var first := w.next(now - w.duration);
    NextOccurs(w, now - w.duration);
    if first <= now {
      WalkIsStable(w, now, t, first, 1,
                   PreferOpenWindow(None, Some(Occurrence(w, first))), EarlierTime(ZERO_TIME, first + w.duration));
    } else {
      NextHolds(w, now - w.duration, now);
    }
    NextHolds(w, now - w.duration, t - w.duration);
    hide LeastElement;
  }

  lemma LeadIsStable(w: ParsedWindow, now: Time, t: Time, lead: Duration)
    requires ValidWindow(w) && lead >= 0 && Found(w, now, lead) && now <= t
    requires t < w.next(now + lead) - lead && t < w.next(now)
    ensures w.next(t + lead) == w.next(now + lead)
    ensures w.next(now) - lead <= t <==> w.next(now) - lead <= now
  {
    NextHolds(w, now + lead, t + lead);
    if now + lead < w.next(now) {
      NextHolds(w, now, now + lead);
    }
    hide LeastElement;
  }

  lemma WithLeadIsStable(w: ParsedWindow, now: Time, t: Time, lead: Duration, past: Scan)
    requires ValidWindow(w) && lead >= 0 && Found(w, now, lead) && now <= t
    requires past.upcoming == w.next(now)
    requires t < w.next(now + lead) - lead && t < w.next(now)
    ensures WithLead(w, t, lead, past) == WithLead(w, now, lead, past)
  {
    LeadIsStable(w, now, t, lead);
    hide LeastElement, EarlierTime, PreferOpenWindow;
  }

  /** A scan that succeeds at now gives the same scan at every instant before its boundary. */
  lemma ScanIsStable(w: ParsedWindow, now: Time, t: Time, lead: Duration)
    requires ValidWindow(w) && ZERO_TIME < now <= t && lead >= 0
    requires ScanOf(w, now, lead).Ok? && t < ScanOf(w, now, lead).value.wake
    ensures ScanOf(w, t, lead) == ScanOf(w, now, lead)
  {
    ScanIsClosed(w, now, lead);
    PastScan(w, now);
    hide ScanFrom, LeastElement, WithLead;
    PastScanIsStable(w, now, t);
    WithLeadIsStable(w, now, t, lead, ScanFrom(w, now, now - w.duration, 0, None, ZERO_TIME).value);
  }
}
